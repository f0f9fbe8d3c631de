/** Refreshes that bypass the single flight. The boot effect of AuthProvider reads the
    refresh token from local storage and presents it without refreshOnce; in development
    builds strict mode runs that effect twice, and every other tab of the browser works on
    the same storage. A run interleaves one tab's protocol with any number of such
    refreshes. */
module BootRefresh {
  import opened Wrappers
  import opened Identity
  import opened AccountLifecycle
  import opened RefreshProtocol

  /** A refresh on its way to the server, or its answer on the way back. */
  datatype Packet = Asked(token: string) | Replied(tokens: Option<(string, string)>)

  /** `sameTab`: the effect sets this tab's access token, not another tab's. */
  datatype Boot = Boot(sameTab: bool, packet: Packet)

  datatype Site = Site(w: World, boots: map<nat, Boot>)

  datatype Event =
    | OfTab(a: Action)
    | StartBoot(id: nat, sameTab: bool)
    | ServeBoot(id: nat, salt: nat)
    | LoseBoot(id: nat)
    | LandBoot(id: nat, cancelled: bool)

  /** The boot effect after its await: a failure clears the session unless the effect was
      cleaned up meanwhile; a success stores the pair in any case. */
  function Landed(tab: Tab, boot: Boot, cancelled: bool): Tab {
    match boot.packet
    case Replied(Some((access, refresh))) =>
      tab.(stored := Some(refresh), access := if boot.sameTab then Some(access) else tab.access)
    case Replied(None) =>
      if cancelled then tab else tab.(stored := None, access := if boot.sameTab then None else tab.access)
    case Asked(_) => tab
  }

  /** Serving the token of a refresh that did not come from the tab. */
  function Served(cfg: Config, w: World, token: string, salt: nat): (World, Packet) {
    var (s', reply) := RefreshStep(cfg, w.server, token, salt);
    if reply.Refreshed?
    then (w.(server := s', jti := reply.jti, token := reply.refresh), Replied(Some((reply.access, reply.refresh))))
    else (w.(server := s'), Replied(None))
  }

  function Advance(cfg: Config, x: Site, e: Event): Site {
    match e
    case OfTab(a) => x.(w := Next(cfg, x.w, a))
    case StartBoot(id, sameTab) =>
      if id in x.boots || x.w.tab.stored.None? then x
      else x.(boots := x.boots[id := Boot(sameTab, Asked(x.w.tab.stored.value))])
    case ServeBoot(id, salt) =>
      if id !in x.boots || !x.boots[id].packet.Asked? then x
      else
        var (w', reply) := Served(cfg, x.w, x.boots[id].packet.token, salt);
        Site(w', x.boots[id := x.boots[id].(packet := reply)])
    case LoseBoot(id) => if id !in x.boots then x else x.(boots := x.boots[id := x.boots[id].(packet := Replied(None))])
    case LandBoot(id, cancelled) =>
      if id !in x.boots || x.boots[id].packet.Asked? then x
      else Site(x.w.(tab := Landed(x.w.tab, x.boots[id], cancelled)), x.boots - {id})
  }

  function Play(cfg: Config, x: Site, events: seq<Event>): Site
    decreases events
  {
    if events == [] then x else Play(cfg, Advance(cfg, x, events[0]), events[1..])
  }

  // ------------------------------------------------------------ what is under way

  datatype Source = FromTab | FromBoot(id: nat)

  function PacketOf(m: Message): Packet {
    match m
    case ToServer(_, token) => Asked(token)
    case ToClient(_, tokens) => Replied(tokens)
  }

  function PacketAt(x: Site, s: Source): Option<Packet> {
    match s
    case FromTab => if x.w.net == [] then None else Some(PacketOf(x.w.net[0]))
    case FromBoot(id) => if id in x.boots then Some(x.boots[id].packet) else None
  }

  /** The token that waits to be served. */
  function AskAt(x: Site, s: Source): Option<string> {
    match PacketAt(x, s)
    case Some(Asked(token)) => Some(token)
    case _ => None
  }

  predicate UnderWay(x: Site) {
    x.w.net != [] || x.boots != map[]
  }

  /** The event sends a refresh. */
  predicate Starts(x: Site, e: Event) {
    match e
    case OfTab(Answer(call, status)) => FirstAnswer(x.w.tab, call, status).1 != []
    case StartBoot(id, _) => id !in x.boots && x.w.tab.stored.Some?
    case _ => false
  }

  function Presents(x: Site, e: Event): Option<Source> {
    match e
    case OfTab(Serve(i, _)) => if i == 0 && AskAt(x, FromTab).Some? then Some(FromTab) else None
    case ServeBoot(id, _) => if AskAt(x, FromBoot(id)).Some? then Some(FromBoot(id)) else None
    case _ => None
  }

  predicate Unexpired(cfg: Config, s: Store, token: string) {
    && cfg.verifyRefresh(token, s.now).Some?
    && var jti := cfg.verifyRefresh(token, s.now).value;
       jti < |s.sessions| ==> s.sessions[jti].expiresAt >= s.now
  }

  /** Nothing is lost and nothing has run out when it is served. */
  predicate CalmEvent(cfg: Config, x: Site, e: Event) {
    && (e.OfTab? && e.a.Lose? ==> e.a.i >= |x.w.net|)
    && (e.LoseBoot? ==> e.id !in x.boots)
    && (Presents(x, e).Some? ==> Unexpired(cfg, x.w.server, AskAt(x, Presents(x, e).value).value))
  }

  predicate CalmPlay(cfg: Config, x: Site, events: seq<Event>)
    decreases events
  {
    events == [] || (CalmEvent(cfg, x, events[0]) && CalmPlay(cfg, Advance(cfg, x, events[0]), events[1..]))
  }

  predicate Accepts(cfg: Config, x: Site, e: Event) {
    Presents(x, e).Some? ==> RefreshStep(cfg, x.w.server, AskAt(x, Presents(x, e).value).value, 0).1.Refreshed?
  }

  predicate AllAccepted(cfg: Config, x: Site, events: seq<Event>)
    decreases events
  {
    events == [] || (Accepts(cfg, x, events[0]) && AllAccepted(cfg, Advance(cfg, x, events[0]), events[1..]))
  }

  /** No refresh starts while another one is under way. */
  predicate NoOverlap(cfg: Config, x: Site, events: seq<Event>)
    decreases events
  {
    events == [] || (!(Starts(x, events[0]) && UnderWay(x)) && NoOverlap(cfg, Advance(cfg, x, events[0]), events[1..]))
  }

  ghost predicate AllServed(x: Site) {
    forall s :: AskAt(x, s).None?
  }

  // -------------------------------------------- with one refresh at a time all is well

  predicate PairFits(w: World, p: Packet) {
    match p
    case Asked(token) => token == w.token
    case Replied(Some((_, refresh))) => refresh == w.token
    case Replied(None) => false
  }

  /** While a request travels, the stored token is the one it carries; once it has been
      served, the stored token is dead until the answer lands. */
  ghost predicate Fits(cfg: Config, w: World, p: Packet) {
    && PairFits(w, p)
    && (p.Asked? ==> StoredFresh(w))
    && (p.Replied? ==> w.tab.stored.Some? ==> Dead(cfg, w.server, w.tab.stored.value))
  }

  ghost predicate Orderly(cfg: Config, x: Site) {
    && Consistent(x.w.server)
    && HoldsLiveSession(cfg, x.w.server, x.w.jti, x.w.token)
    && SingleFlight(x.w)
    && (forall s :: PacketAt(x, s).Some? ==> Fits(cfg, x.w, PacketAt(x, s).value))
    && (forall s, t :: PacketAt(x, s).Some? && PacketAt(x, t).Some? ==> s == t)
    && (!UnderWay(x) ==> StoredFresh(x.w))
  }

  lemma UnderWayIff(x: Site)
    ensures UnderWay(x) <==> exists s :: PacketAt(x, s).Some?
  {
    if x.w.net != [] {
      assert PacketAt(x, FromTab).Some?;
    } else if x.boots != map[] {
      var id :| id in x.boots;
      assert PacketAt(x, FromBoot(id)).Some?;
    }
  }

  /** Serving the one request under way rotates the session it belongs to. */
  lemma LiveTokenServed(cfg: Config, w: World, salt: nat)
    requires ValidConfig(cfg) && Consistent(w.server) && HoldsLiveSession(cfg, w.server, w.jti, w.token)
    requires StoredFresh(w) && Unexpired(cfg, w.server, w.token)
    ensures RefreshStep(cfg, w.server, w.token, salt).1.Refreshed?
    ensures var (w', p) := Served(cfg, w, w.token, salt);
      && Consistent(w'.server) && HoldsLiveSession(cfg, w'.server, w'.jti, w'.token)
      && w'.tab == w.tab && w'.net == w.net && p.Replied? && Fits(cfg, w', p)
  {
    ServeLiveToken(cfg, w.server, w.jti, w.token, salt);
    StepKeepsConsistent(cfg, w.server, Op.Refresh(w.token, salt));
    AcceptedTokenDies(cfg, w.server, w.token, salt);
  }

  lemma ServeTabKeepsOrderly(cfg: Config, x: Site, salt: nat)
    requires ValidConfig(cfg) && Orderly(cfg, x) && AskAt(x, FromTab).Some?
    requires Unexpired(cfg, x.w.server, AskAt(x, FromTab).value)
    ensures RefreshStep(cfg, x.w.server, AskAt(x, FromTab).value, 0).1.Refreshed?
    ensures Orderly(cfg, Advance(cfg, x, OfTab(Serve(0, salt))))
  {
    var x' := Advance(cfg, x, OfTab(Serve(0, salt)));
    LiveTokenServed(cfg, x.w, 0);
    LiveTokenServed(cfg, x.w, salt);
    NextKeepsFlight(cfg, x.w, Serve(0, salt));
    assert PacketAt(x, FromTab).Some?;
    assert forall s :: PacketAt(x', s).Some? ==> PacketAt(x, s).Some?;
    var (w1, p) := Served(cfg, x.w, x.w.token, salt);
    assert x'.w.net[0] == ToClient(x.w.net[0].promise, p.tokens);
    assert x'.w.(net := x.w.net) == w1;
  }

  lemma ServeBootKeepsOrderly(cfg: Config, x: Site, id: nat, salt: nat)
    requires ValidConfig(cfg) && Orderly(cfg, x) && AskAt(x, FromBoot(id)).Some?
    requires Unexpired(cfg, x.w.server, AskAt(x, FromBoot(id)).value)
    ensures RefreshStep(cfg, x.w.server, AskAt(x, FromBoot(id)).value, 0).1.Refreshed?
    ensures Orderly(cfg, Advance(cfg, x, ServeBoot(id, salt)))
  {
    var x' := Advance(cfg, x, ServeBoot(id, salt));
    LiveTokenServed(cfg, x.w, 0);
    LiveTokenServed(cfg, x.w, salt);
    assert PacketAt(x, FromBoot(id)).Some?;
    assert forall s :: PacketAt(x', s).Some? ==> PacketAt(x, s).Some?;
    assert PacketAt(x', FromBoot(id)) == Some(Served(cfg, x.w, x.w.token, salt).1);
    assert x'.boots != map[];
  }

  lemma ElsewhereKeepsOrderly(cfg: Config, x: Site, op: Op)
    requires ValidConfig(cfg) && Orderly(cfg, x)
    ensures Orderly(cfg, Advance(cfg, x, OfTab(Elsewhere(op))))
  {
    var x', s' := Advance(cfg, x, OfTab(Elsewhere(op))), Step(cfg, x.w.server, op).0;
    if StillLive(s', x.w.jti) {
      StepKeepsConsistent(cfg, x.w.server, op);
      StepKeepsHeldSession(cfg, x.w.server, op, x.w.jti, x.w.token);
      assert forall s :: PacketAt(x', s) == PacketAt(x, s);
      if x.w.tab.stored.Some? && Dead(cfg, x.w.server, x.w.tab.stored.value) {
        StepKeepsDead(cfg, x.w.server, op, x.w.tab.stored.value);
      }
    }
  }

  lemma AnswerKeepsOrderly(cfg: Config, x: Site, call: nat, status: Status)
    requires ValidConfig(cfg) && Orderly(cfg, x)
    requires Starts(x, OfTab(Answer(call, status))) ==> !UnderWay(x)
    ensures Orderly(cfg, Advance(cfg, x, OfTab(Answer(call, status))))
  {
    var x' := Advance(cfg, x, OfTab(Answer(call, status)));
    NextKeepsFlight(cfg, x.w, Answer(call, status));
    UnderWayIff(x);
    UnderWayIff(x');
    if Starts(x, OfTab(Answer(call, status))) {
      assert x'.w.net[0] == ToServer(x.w.tab.nextPromise, x.w.tab.stored.value);
      assert forall s :: PacketAt(x', s).Some? ==> s == FromTab;
    } else {
      assert x'.w.net == x.w.net;
      assert forall s :: PacketAt(x', s) == PacketAt(x, s);
    }
  }

  lemma DeliverKeepsOrderly(cfg: Config, x: Site, i: nat)
    requires ValidConfig(cfg) && Orderly(cfg, x)
    ensures Orderly(cfg, Advance(cfg, x, OfTab(Deliver(i))))
  {
    var x' := Advance(cfg, x, OfTab(Deliver(i)));
    NextKeepsFlight(cfg, x.w, Deliver(i));
    UnderWayIff(x);
    UnderWayIff(x');
    if i < |x.w.net| && x.w.net[i].ToClient? {
      assert PacketAt(x, FromTab).Some?;
      assert x'.w.net == [];
      assert forall s :: PacketAt(x', s).Some? ==> PacketAt(x, s).Some? && s != FromTab;
    } else {
      assert x' == x;
    }
  }

  lemma TabKeepsOrderly(cfg: Config, x: Site, a: Action)
    requires ValidConfig(cfg) && Orderly(cfg, x) && CalmEvent(cfg, x, OfTab(a))
    requires Starts(x, OfTab(a)) ==> !UnderWay(x)
    ensures Accepts(cfg, x, OfTab(a)) && Orderly(cfg, Advance(cfg, x, OfTab(a)))
  {
    var x' := Advance(cfg, x, OfTab(a));
    NextKeepsFlight(cfg, x.w, a);
    match a
    case Answer(call, status) => AnswerKeepsOrderly(cfg, x, call, status);
    case Serve(i, salt) =>
      if i == 0 && AskAt(x, FromTab).Some? {
        ServeTabKeepsOrderly(cfg, x, salt);
      } else {
        assert x' == x;
      }
    case Deliver(i) => DeliverKeepsOrderly(cfg, x, i);
    case Elsewhere(op) => ElsewhereKeepsOrderly(cfg, x, op);
    case Lose(i) => assert x' == x;
    case _ => assert forall s :: PacketAt(x', s) == PacketAt(x, s);
  }

  lemma StartBootKeepsOrderly(cfg: Config, x: Site, id: nat, sameTab: bool)
    requires Orderly(cfg, x) && (Starts(x, StartBoot(id, sameTab)) ==> !UnderWay(x))
    ensures Orderly(cfg, Advance(cfg, x, StartBoot(id, sameTab)))
  {
    var x' := Advance(cfg, x, StartBoot(id, sameTab));
    UnderWayIff(x);
    if x' != x {
      assert PacketAt(x', FromBoot(id)) == Some(Asked(x.w.token));
      assert x'.boots != map[];
    }
  }

  lemma LandBootKeepsOrderly(cfg: Config, x: Site, id: nat, cancelled: bool)
    requires Orderly(cfg, x)
    ensures Orderly(cfg, Advance(cfg, x, LandBoot(id, cancelled)))
  {
    var x' := Advance(cfg, x, LandBoot(id, cancelled));
    UnderWayIff(x);
    UnderWayIff(x');
    if x' != x {
      assert PacketAt(x, FromBoot(id)).Some?;
      assert forall s :: PacketAt(x', s).Some? ==> PacketAt(x, s).Some? && s != FromBoot(id);
    }
  }

  lemma EventKeepsOrderly(cfg: Config, x: Site, e: Event)
    requires ValidConfig(cfg) && Orderly(cfg, x) && CalmEvent(cfg, x, e)
    requires Starts(x, e) ==> !UnderWay(x)
    ensures Accepts(cfg, x, e) && Orderly(cfg, Advance(cfg, x, e))
  {
    match e
    case OfTab(a) => TabKeepsOrderly(cfg, x, a);
    case StartBoot(id, sameTab) => StartBootKeepsOrderly(cfg, x, id, sameTab);
    case ServeBoot(id, salt) =>
      if AskAt(x, FromBoot(id)).Some? {
        ServeBootKeepsOrderly(cfg, x, id, salt);
      }
    case LoseBoot(id) =>
    case LandBoot(id, cancelled) => LandBootKeepsOrderly(cfg, x, id, cancelled);
  }

  // --------------------------------------------------------- an overlap costs a refusal

  lemma EventKeepsDead(cfg: Config, x: Site, e: Event, token: string)
    requires Dead(cfg, x.w.server, token)
    ensures Dead(cfg, Advance(cfg, x, e).w.server, token)
  {
    match e
    case OfTab(Serve(i, salt)) =>
      if i < |x.w.net| && x.w.net[i].ToServer? {
        StepKeepsDead(cfg, x.w.server, Op.Refresh(x.w.net[i].token, salt), token);
      }
    case OfTab(Elsewhere(op)) => StepKeepsDead(cfg, x.w.server, op, token);
    case ServeBoot(id, salt) =>
      if id in x.boots && x.boots[id].packet.Asked? {
        StepKeepsDead(cfg, x.w.server, Op.Refresh(x.boots[id].packet.token, salt), token);
      }
    case _ =>
  }

  lemma EventKeepsFlight(cfg: Config, x: Site, e: Event)
    requires SingleFlight(x.w)
    ensures SingleFlight(Advance(cfg, x, e).w)
  {
    match e
    case OfTab(a) => NextKeepsFlight(cfg, x.w, a);
    case _ =>
  }

  /** A request stays where it is until it is served. */
  lemma AskStays(cfg: Config, x: Site, e: Event, s: Source)
    requires SingleFlight(x.w) && CalmEvent(cfg, x, e) && AskAt(x, s).Some? && Presents(x, e) != Some(s)
    ensures AskAt(Advance(cfg, x, e), s) == AskAt(x, s)
  {
  }

  lemma PresentedTokenDies(cfg: Config, x: Site, e: Event)
    requires ValidConfig(cfg) && Presents(x, e).Some? && Accepts(cfg, x, e)
    ensures Dead(cfg, Advance(cfg, x, e).w.server, AskAt(x, Presents(x, e).value).value)
  {
    var token := AskAt(x, Presents(x, e).value).value;
    match e
    case OfTab(Serve(i, salt)) => AcceptedTokenDies(cfg, x.w.server, token, salt);
    case ServeBoot(id, salt) => AcceptedTokenDies(cfg, x.w.server, token, salt);
  }

  /** A request with a dead token is refused when it is served. */
  lemma {:induction false} DeadAskIsFatal(cfg: Config, x: Site, events: seq<Event>, s: Source)
    requires SingleFlight(x.w) && CalmPlay(cfg, x, events) && AllServed(Play(cfg, x, events))
    requires AskAt(x, s).Some? && Dead(cfg, x.w.server, AskAt(x, s).value)
    ensures !AllAccepted(cfg, x, events)
    decreases events
  {
    if events == [] {
      assert false;
    } else if Presents(x, events[0]) != Some(s) {
      AskStays(cfg, x, events[0], s);
      EventKeepsDead(cfg, x, events[0], AskAt(x, s).value);
      EventKeepsFlight(cfg, x, events[0]);
      DeadAskIsFatal(cfg, Advance(cfg, x, events[0]), events[1..], s);
    }
  }

  /** Of two requests with one token, one is refused. */
  lemma {:induction false} TwinAsksAreFatal(cfg: Config, x: Site, events: seq<Event>, s: Source, t: Source)
    requires ValidConfig(cfg) && SingleFlight(x.w) && CalmPlay(cfg, x, events) && AllServed(Play(cfg, x, events))
    requires s != t && AskAt(x, s).Some? && AskAt(x, t) == AskAt(x, s)
    ensures !AllAccepted(cfg, x, events)
    decreases events
  {
    if events == [] {
      assert false;
    } else {
      var e, x' := events[0], Advance(cfg, x, events[0]);
      EventKeepsFlight(cfg, x, e);
      if Accepts(cfg, x, e) {
        if Presents(x, e) == Some(s) {
          PresentedTokenDies(cfg, x, e);
          AskStays(cfg, x, e, t);
          DeadAskIsFatal(cfg, x', events[1..], t);
        } else if Presents(x, e) == Some(t) {
          PresentedTokenDies(cfg, x, e);
          AskStays(cfg, x, e, s);
          DeadAskIsFatal(cfg, x', events[1..], s);
        } else {
          AskStays(cfg, x, e, s);
          AskStays(cfg, x, e, t);
          TwinAsksAreFatal(cfg, x', events[1..], s, t);
        }
      }
    }
  }

  /** The source of the refresh an event sends. */
  function Sender(e: Event): Source {
    match e
    case StartBoot(id, _) => FromBoot(id)
    case _ => FromTab
  }

  lemma StartAsks(cfg: Config, x: Site, e: Event)
    requires SingleFlight(x.w) && Starts(x, e)
    ensures x.w.tab.stored.Some? && PacketAt(x, Sender(e)).None?
    ensures AskAt(Advance(cfg, x, e), Sender(e)) == x.w.tab.stored
    ensures forall s :: s != Sender(e) ==> PacketAt(Advance(cfg, x, e), s) == PacketAt(x, s)
    ensures Advance(cfg, x, e).w.server == x.w.server
  {
  }

  /** A refresh that starts while another one is under way costs a refusal: the two carry one
      token, or the token of the new one has just been rotated. */
  lemma OverlapIsFatal(cfg: Config, x: Site, e: Event, rest: seq<Event>)
    requires ValidConfig(cfg) && Orderly(cfg, x) && Starts(x, e) && UnderWay(x)
    requires CalmPlay(cfg, Advance(cfg, x, e), rest) && AllServed(Play(cfg, Advance(cfg, x, e), rest))
    ensures !AllAccepted(cfg, Advance(cfg, x, e), rest)
  {
    var x' := Advance(cfg, x, e);
    UnderWayIff(x);
    StartAsks(cfg, x, e);
    EventKeepsFlight(cfg, x, e);
    var s :| PacketAt(x, s).Some?;
    if AskAt(x, s).Some? {
      TwinAsksAreFatal(cfg, x', rest, s, Sender(e));
    } else {
      DeadAskIsFatal(cfg, x', rest, Sender(e));
    }
  }

  // ------------------------------------------------------------------ main results

  /** With nothing lost and nothing run out, the server accepts every refresh of a run
      exactly when none starts while another one is under way, whatever other clients do in
      between. */
  lemma {:induction false} AcceptedIffNoOverlap(cfg: Config, x: Site, events: seq<Event>)
    requires ValidConfig(cfg) && Orderly(cfg, x)
    requires CalmPlay(cfg, x, events) && AllServed(Play(cfg, x, events))
    ensures AllAccepted(cfg, x, events) <==> NoOverlap(cfg, x, events)
    decreases events
  {
    if events == [] {
    } else if Starts(x, events[0]) && UnderWay(x) {
      OverlapIsFatal(cfg, x, events[0], events[1..]);
    } else {
      EventKeepsOrderly(cfg, x, events[0]);
      AcceptedIffNoOverlap(cfg, Advance(cfg, x, events[0]), events[1..]);
    }
  }

  /** The site after a login, with no refresh under way. */
  function LoggedInSite(s: Store, r: Reply): Site
    requires r.LoggedIn?
  {
    Site(World(s, Tab(Some(r.access), Some(r.refresh), None, 0, map[]), [], r.jti, r.refresh), map[])
  }

  lemma LoginIsOrderly(cfg: Config, s: Store, raw: string, code: string, salt: nat)
    requires ValidConfig(cfg) && Consistent(s) && VerifyCodeStep(cfg, s, raw, code, salt).1.LoggedIn?
    ensures var (s', r) := VerifyCodeStep(cfg, s, raw, code, salt); Orderly(cfg, LoggedInSite(s', r))
  {
    LoginEstablishesInv(cfg, s, raw, code, salt);
  }

  /** A call of the tab meets a 401, and another tab boots before the answer is there. */
  function RaceAfterLogin(cfg: Config, s: Store, r: Reply): Site
    requires r.LoggedIn?
  {
    Play(cfg, LoggedInSite(s, r), [OfTab(Begin(0, false)), OfTab(Answer(0, Unauthorized))])
  }

  /** An overlap is within reach of every login: both refreshes carry the login's token, and
      however the run goes on, one of its refreshes is refused. */
  lemma OverlapReached(cfg: Config, s: Store, raw: string, code: string, salt: nat, rest: seq<Event>)
    requires ValidConfig(cfg) && Consistent(s) && VerifyCodeStep(cfg, s, raw, code, salt).1.LoggedIn?
    ensures var (s', r) := VerifyCodeStep(cfg, s, raw, code, salt);
      var x := Advance(cfg, RaceAfterLogin(cfg, s', r), StartBoot(0, false));
      && AskAt(x, FromTab) == AskAt(x, FromBoot(0)) == Some(r.refresh)
      && (CalmPlay(cfg, x, rest) && AllServed(Play(cfg, x, rest)) ==> !AllAccepted(cfg, x, rest))
  {
    var (s', r) := VerifyCodeStep(cfg, s, raw, code, salt);
    var x0 := LoggedInSite(s', r);
    var first, second := OfTab(Begin(0, false)), OfTab(Answer(0, Unauthorized));
    LoginIsOrderly(cfg, s, raw, code, salt);
    EventKeepsOrderly(cfg, x0, first);
    var x1 := Advance(cfg, x0, first);
    EventKeepsOrderly(cfg, x1, second);
    var x2 := Advance(cfg, x1, second);
    assert RaceAfterLogin(cfg, s', r) == x2 by {
      assert [first, second][1..] == [second] && [second][1..] == [];
    }
    StartAsks(cfg, x2, StartBoot(0, false));
    assert AskAt(x2, FromTab) == Some(r.refresh);
    if CalmPlay(cfg, Advance(cfg, x2, StartBoot(0, false)), rest)
       && AllServed(Play(cfg, Advance(cfg, x2, StartBoot(0, false)), rest)) {
      OverlapIsFatal(cfg, x2, StartBoot(0, false), rest);
    }
  }

  /** Both boot effects present the stored token; the second presentation is refused. */
  lemma DoubleBootServed(cfg: Config, w: World, salt: nat, salt': nat)
    requires ValidConfig(cfg) && w.tab.stored == Some(w.token)
    requires RefreshStep(cfg, w.server, w.token, salt).1.Refreshed?
    ensures var (w1, first) := Served(cfg, w, w.token, salt);
      Play(cfg, Site(w, map[]), [StartBoot(0, true), StartBoot(1, true), ServeBoot(0, salt), ServeBoot(1, salt')])
      == Site(w1, map[0 := Boot(true, first), 1 := Boot(true, Replied(None))])
  {
    var token, asked := w.token, Boot(true, Asked(w.token));
    var (w1, first) := Served(cfg, w, token, salt);
    AcceptedTokenDies(cfg, w.server, token, salt);
    DeadIsRefused(cfg, w1.server, token, salt');
    var starts, serves := [StartBoot(0, true), StartBoot(1, true)], [ServeBoot(0, salt), ServeBoot(1, salt')];
    assert starts + serves == [StartBoot(0, true), StartBoot(1, true), ServeBoot(0, salt), ServeBoot(1, salt')];
    PlayTwo(cfg, Site(w, map[]), StartBoot(0, true), StartBoot(1, true), serves);
    var both := Site(w, map[0 := asked, 1 := asked]);
    assert map[][0 := asked][1 := asked] == both.boots;
    assert serves + [] == serves;
    PlayTwo(cfg, both, ServeBoot(0, salt), ServeBoot(1, salt'), []);
    assert both.boots[0 := Boot(true, first)][1 := Boot(true, Replied(None))]
        == map[0 := Boot(true, first), 1 := Boot(true, Replied(None))];
  }

  lemma PlayTwo(cfg: Config, x: Site, e: Event, e': Event, rest: seq<Event>)
    ensures Play(cfg, x, [e, e'] + rest) == Play(cfg, Advance(cfg, Advance(cfg, x, e), e'), rest)
  {
    assert ([e, e'] + rest)[1..] == [e'] + rest;
    assert ([e'] + rest)[1..] == rest;
  }

  /** In development builds strict mode runs every effect twice, so two boot effects present
      one token. The second answer clears the storage although the session is live: the
      developer has to log in again. A production build runs the effect once. */
  lemma DoubleBootLogsOut(cfg: Config, w: World, salt: nat, salt': nat)
    requires ValidConfig(cfg) && Orderly(cfg, Site(w, map[])) && w.net == []
    requires w.tab.stored.Some? && Unexpired(cfg, w.server, w.token)
    ensures var served := Play(cfg, Site(w, map[]),
                               [StartBoot(0, true), StartBoot(1, true), ServeBoot(0, salt), ServeBoot(1, salt')]);
      var landed := Advance(cfg, Advance(cfg, served, LandBoot(0, true)), LandBoot(1, false));
      && landed.w.tab.stored.None? && landed.w.tab.access.None? && !UnderWay(landed)
      && StillLive(landed.w.server, landed.w.jti)
  {
    LiveTokenServed(cfg, w, salt);
    DoubleBootServed(cfg, w, salt, salt');
    var (w1, first) := Served(cfg, w, w.token, salt);
    assert map[0 := Boot(true, first), 1 := Boot(true, Replied(None))] - {0} - {1} == map[];
  }

  lemma DeadIsRefused(cfg: Config, s: Store, token: string, salt: nat)
    requires Dead(cfg, s, token)
    ensures RefreshStep(cfg, s, token, salt).0 == s && RefreshStep(cfg, s, token, salt).1.Failed?
  {
  }

  // ------------------------------------------------------------------ the boot effect

  /** One run of the boot effect, next to the client whose storage it works on. */
  class BootEffect {
    const client: ApiClient
    const sameTab: bool

    constructor (client: ApiClient, sameTab: bool)
      ensures this.client == client && this.sameTab == sameTab
    {
      this.client, this.sameTab := client, sameTab;
    }

    /** Up to the await: the request that the site then has under way, or none. */
    method Start(cfg: Config, ghost x: Site, ghost id: nat) returns (packet: Option<Packet>)
      requires x.w.tab == client.Snapshot() && id !in x.boots
      ensures PacketAt(Advance(cfg, x, StartBoot(id, sameTab)), FromBoot(id)) == packet
      ensures packet.Some? <==> Starts(x, StartBoot(id, sameTab))
    {
      if client.stored.None? { return None; }
      packet := Some(Asked(client.stored.value));
    }

    method Land(tokens: Option<(string, string)>, cancelled: bool)
      modifies client`access, client`stored
      ensures client.Snapshot() == Landed(old(client.Snapshot()), Boot(sameTab, Replied(tokens)), cancelled)
    {
      if tokens.Some? {
        if sameTab { client.access := Some(tokens.value.0); }
        client.stored := Some(tokens.value.1);
        return;
      }
      if cancelled { return; }
      if sameTab { client.access := None; }
      client.stored := None;
    }
  }
}
