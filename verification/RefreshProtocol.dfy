/** The web client's token refresh against the rotating server: apps/admin/src/api/client.ts
    and the handlers of AuthProvider.tsx as a step protocol. JavaScript runs each
    continuation to completion, so a step is what happens between two awaits. The network
    is a bag of refresh requests and responses that may be served, lost and delivered in
    any order; other clients of the server act in between. */
module RefreshProtocol {
  import opened Wrappers
  import opened Identity
  import opened AccountLifecycle

  datatype Outcome = Succeeded | Refused | NetworkError | SessionExpired

  datatype Status = Success | Unauthorized | OtherStatus | NoResponse

  /** Where one apiFetch call is. */
  datatype Phase =
    | Sent(skipAuthRetry: bool, carried: Option<string>)
    | Waiting(promise: nat)
    | Retrying(newToken: string)
    | Finished(outcome: Outcome)

  datatype Message =
    | ToServer(promise: nat, token: string)
    | ToClient(promise: nat, tokens: Option<(string, string)>)

  /** One browser tab after boot: the access token ref, the refresh token in local storage,
      the module variable inFlightRefresh, and the pending calls. */
  datatype Tab = Tab(access: Option<string>, stored: Option<string>, inFlight: Option<nat>,
                     nextPromise: nat, calls: map<nat, Phase>)

  // ------------------------------------------------------- the client's continuations

  function Clear(tab: Tab): Tab {
    tab.(access := None, stored := None)
  }

  /** apiFetch up to its first await. */
  function BeginCall(tab: Tab, call: nat, skipAuthRetry: bool): Tab {
    if call in tab.calls then tab else tab.(calls := tab.calls[call := Sent(skipAuthRetry, tab.access)])
  }

  /** refreshOnce: the promise to wait for (None when the refresh handler rejects because no
      token is stored) and the request that leaves the tab. */
  function RefreshOnce(tab: Tab): (Tab, Option<nat>, seq<Message>) {
    if tab.inFlight.Some? then (tab, tab.inFlight, [])
    else if tab.stored.None? then (tab, None, [])
    else
      var p := tab.nextPromise;
      (tab.(inFlight := Some(p), nextPromise := p + 1), Some(p), [ToServer(p, tab.stored.value)])
  }

  /** The first attempt of a call comes back. */
  function FirstAnswer(tab: Tab, call: nat, status: Status): (Tab, seq<Message>) {
    if call !in tab.calls || !tab.calls[call].Sent? then (tab, [])
    else match status
      case Success => (tab.(calls := tab.calls[call := Finished(Succeeded)]), [])
      case OtherStatus => (tab.(calls := tab.calls[call := Finished(Refused)]), [])
      case NoResponse => (tab.(calls := tab.calls[call := Finished(NetworkError)]), [])
      case Unauthorized =>
        if tab.calls[call].skipAuthRetry then (tab.(calls := tab.calls[call := Finished(Refused)]), [])
        else
          var (tab', promise, out) := RefreshOnce(tab);
          match promise
          case Some(p) => (tab'.(calls := tab'.calls[call := Waiting(p)]), out)
          case None => (Clear(tab').(calls := tab'.calls[call := Finished(SessionExpired)]), out)
  }

  predicate IsWaiter(tab: Tab, call: nat, promise: nat) {
    call in tab.calls && tab.calls[call] == Waiting(promise)
  }

  predicate HasWaiter(tab: Tab, promise: nat) {
    exists k :: k in tab.calls && IsWaiter(tab, k, promise)
  }

  /** Every call that awaits the promise moves on to the given phase. */
  function Resume(calls: map<nat, Phase>, promise: nat, next: Phase): (r: map<nat, Phase>) {
    map k | k in calls :: if calls[k] == Waiting(promise) then next else calls[k]
  }

  /** The shared promise settles: the handler stores the pair, `finally` clears the
      variable, and every waiter retries with the new token or reports the failure. */
  function Settle(tab: Tab, promise: nat, tokens: Option<(string, string)>): Tab {
    match tokens
    case Some((access, refresh)) =>
      tab.(access := Some(access), stored := Some(refresh), inFlight := None,
           calls := Resume(tab.calls, promise, Retrying(access)))
    case None =>
      var t := if HasWaiter(tab, promise) then Clear(tab) else tab;
      t.(inFlight := None, calls := Resume(tab.calls, promise, Finished(SessionExpired)))
  }

  /** The retry comes back; a second 401, and a network failure too, ends the session. */
  function RetryAnswer(tab: Tab, call: nat, status: Status): Tab {
    if call !in tab.calls || !tab.calls[call].Retrying? then tab
    else match status
      case Success => tab.(calls := tab.calls[call := Finished(Succeeded)])
      case OtherStatus => tab.(calls := tab.calls[call := Finished(Refused)])
      case _ => Clear(tab).(calls := tab.calls[call := Finished(SessionExpired)])
  }

  // ------------------------------------------------------------------- the protocol

  /** `jti` and `token` name the newest session of the client's login and its refresh token. */
  datatype World = World(server: Store, tab: Tab, net: seq<Message>, jti: nat, token: string)

  datatype Action =
    | Begin(call: nat, skipAuthRetry: bool)
    | Answer(call: nat, status: Status)
    | Serve(i: nat, salt: nat)
    | Lose(i: nat)
    | Deliver(i: nat)
    | AnswerRetry(call: nat, retryStatus: Status)
    | Elsewhere(op: Op)

  function Without(net: seq<Message>, i: nat): seq<Message> {
    if i < |net| then net[..i] + net[i + 1..] else net
  }

  /** One step; an action that is not enabled changes nothing. Other clients may do
      anything except end this client's chain (no logout, no anonymisation). */
  function Next(cfg: Config, w: World, a: Action): World {
    match a
    case Begin(call, skip) => w.(tab := BeginCall(w.tab, call, skip))
    case Answer(call, status) =>
      var (tab', out) := FirstAnswer(w.tab, call, status);
      w.(tab := tab', net := w.net + out)
    case Serve(i, salt) =>
      if i < |w.net| && w.net[i].ToServer? then
        var (s', reply) := RefreshStep(cfg, w.server, w.net[i].token, salt);
        var answer := if reply.Refreshed? then Some((reply.access, reply.refresh)) else None;
        var w' := w.(server := s', net := w.net[i := ToClient(w.net[i].promise, answer)]);
        if reply.Refreshed? then w'.(jti := reply.jti, token := reply.refresh) else w'
      else w
    case Lose(i) => if i < |w.net| then w.(net := w.net[i := ToClient(w.net[i].promise, None)]) else w
    case Deliver(i) =>
      if i < |w.net| && w.net[i].ToClient? then
        w.(tab := Settle(w.tab, w.net[i].promise, w.net[i].tokens), net := Without(w.net, i))
      else w
    case AnswerRetry(call, status) => w.(tab := RetryAnswer(w.tab, call, status))
    case Elsewhere(op) =>
      var s' := Step(cfg, w.server, op).0;
      if StillLive(s', w.jti) then w.(server := s') else w
  }

  function Execute(cfg: Config, w: World, actions: seq<Action>): World
    decreases actions
  {
    if actions == [] then w else Execute(cfg, Next(cfg, w, actions[0]), actions[1..])
  }

  // -------------------------------------------------------------------- invariant

  /** Single flight: the network carries a refresh message exactly when the module variable
      is set, and then only that one; whoever waits, waits for it. */
  ghost predicate SingleFlight(w: World) {
    && |w.net| <= 1
    && (w.tab.inFlight.None? <==> w.net == [])
    && (w.net != [] ==> w.tab.inFlight == Some(w.net[0].promise) && HasWaiter(w.tab, w.net[0].promise))
    && (forall k :: k in w.tab.calls && w.tab.calls[k].Waiting? ==> w.tab.inFlight == Some(w.tab.calls[k].promise))
  }

  /** What the tab can still present is the live token; a stale one lies in storage only
      while the message that replaces or clears it is on its way back. */
  ghost predicate Fresh(w: World) {
    if w.net == [] then StoredFresh(w)
    else match w.net[0]
      case ToServer(_, t) => t == w.token && StoredFresh(w)
      case ToClient(_, Some((_, refresh))) => refresh == w.token
      case ToClient(_, None) => true
  }

  predicate StoredFresh(w: World) {
    w.tab.stored == None || w.tab.stored == Some(w.token)
  }

  ghost predicate Inv(cfg: Config, w: World) {
    && Consistent(w.server)
    && HoldsLiveSession(cfg, w.server, w.jti, w.token)
    && SingleFlight(w)
    && Fresh(w)
  }

  /** A step that turns no waiter into something else leaves every promise its waiters. */
  lemma WaitersStay(tab: Tab, tab': Tab)
    requires forall k :: k in tab.calls && tab.calls[k].Waiting? ==> k in tab'.calls && tab'.calls[k] == tab.calls[k]
    ensures forall p :: HasWaiter(tab, p) ==> HasWaiter(tab', p)
  {
    forall p | HasWaiter(tab, p) ensures HasWaiter(tab', p) {
      var k :| k in tab.calls && IsWaiter(tab, k, p);
      assert IsWaiter(tab', k, p);
    }
  }

  lemma AnswerKeepsFlight(cfg: Config, w: World, call: nat, status: Status)
    requires SingleFlight(w)
    ensures SingleFlight(Next(cfg, w, Answer(call, status)))
  {
    var (tab', out) := FirstAnswer(w.tab, call, status);
    WaitersStay(w.tab, tab');
    if call in tab'.calls && tab'.calls[call].Waiting? {
      assert IsWaiter(tab', call, tab'.calls[call].promise);
    }
    assert w.net + [] == w.net;
  }

  /** The single flight is the tab's own doing, whatever the server makes of the tokens. */
  lemma NextKeepsFlight(cfg: Config, w: World, a: Action)
    requires SingleFlight(w)
    ensures SingleFlight(Next(cfg, w, a))
  {
    match a
    case Begin(call, skip) => WaitersStay(w.tab, BeginCall(w.tab, call, skip));
    case Answer(call, status) => AnswerKeepsFlight(cfg, w, call, status);
    case Deliver(i) =>
      if i < |w.net| && w.net[i].ToClient? {
        assert Without(w.net, i) == [];
      }
    case AnswerRetry(call, status) => WaitersStay(w.tab, RetryAnswer(w.tab, call, status));
    case _ =>
  }

  lemma AnswerKeepsFresh(cfg: Config, w: World, call: nat, status: Status)
    requires SingleFlight(w) && Fresh(w)
    ensures Fresh(Next(cfg, w, Answer(call, status)))
  {
    assert w.net + [] == w.net;
  }

  lemma ServeKeepsInv(cfg: Config, w: World, i: nat, salt: nat)
    requires ValidConfig(cfg) && Inv(cfg, w)
    ensures Inv(cfg, Next(cfg, w, Serve(i, salt)))
  {
    if i < |w.net| && w.net[i].ToServer? {
      ServeLiveToken(cfg, w.server, w.jti, w.token, salt);
      StepKeepsConsistent(cfg, w.server, Op.Refresh(w.token, salt));
    }
  }

  lemma DeliverKeepsInv(cfg: Config, w: World, i: nat)
    requires Inv(cfg, w)
    ensures Inv(cfg, Next(cfg, w, Deliver(i)))
  {
    NextKeepsFlight(cfg, w, Deliver(i));
    if i < |w.net| && w.net[i].ToClient? {
      assert Next(cfg, w, Deliver(i)).net == [];
    }
  }

  lemma NextKeepsInv(cfg: Config, w: World, a: Action)
    requires ValidConfig(cfg) && Inv(cfg, w)
    ensures Inv(cfg, Next(cfg, w, a))
  {
    NextKeepsFlight(cfg, w, a);
    match a
    case Begin(call, skip) =>
    case Answer(call, status) => AnswerKeepsFresh(cfg, w, call, status);
    case Serve(i, salt) => ServeKeepsInv(cfg, w, i, salt);
    case Lose(i) =>
    case Deliver(i) => DeliverKeepsInv(cfg, w, i);
    case AnswerRetry(call, status) =>
    case Elsewhere(op) =>
      var s' := Step(cfg, w.server, op).0;
      if StillLive(s', w.jti) {
        StepKeepsConsistent(cfg, w.server, op);
        StepKeepsHeldSession(cfg, w.server, op, w.jti, w.token);
      }
  }

  lemma {:induction false} ExecuteKeepsInv(cfg: Config, w: World, actions: seq<Action>)
    requires ValidConfig(cfg) && Inv(cfg, w)
    ensures Inv(cfg, Execute(cfg, w, actions))
    decreases actions
  {
    if actions == [] {
    } else {
      NextKeepsInv(cfg, w, actions[0]);
      ExecuteKeepsInv(cfg, Next(cfg, w, actions[0]), actions[1..]);
    }
  }

  // ------------------------------------------------------------------ main results

  /** A login puts the tab into the invariant. */
  lemma LoginEstablishesInv(cfg: Config, s: Store, raw: string, code: string, salt: nat)
    requires ValidConfig(cfg) && Consistent(s) && VerifyCodeStep(cfg, s, raw, code, salt).1.LoggedIn?
    ensures var (s', r) := VerifyCodeStep(cfg, s, raw, code, salt);
      Inv(cfg, World(s', Tab(Some(r.access), Some(r.refresh), None, 0, map[]), [], r.jti, r.refresh))
  {
    StepKeepsConsistent(cfg, s, Op.VerifyCode(raw, code, salt));
  }

  /** In every interleaving of any number of calls, with messages lost or not: at most one
      refresh is under way, and a refresh that reaches the server presents the live session
      of the login. It is accepted exactly when token and session have not run out, so it
      is never refused because an earlier refresh revoked it. */
  lemma {:induction false} RefreshesPresentTheLiveSession(cfg: Config, w: World, actions: seq<Action>, i: nat, salt: nat)
    requires ValidConfig(cfg) && Inv(cfg, w)
    ensures var w' := Execute(cfg, w, actions);
      && |w'.net| <= 1 && StillLive(w'.server, w'.jti)
      && (i < |w'.net| && w'.net[i].ToServer? ==>
            var r := RefreshStep(cfg, w'.server, w'.net[i].token, salt).1;
            var expired := cfg.verifyRefresh(w'.net[i].token, w'.server.now).None?
                           || w'.server.sessions[w'.jti].expiresAt < w'.server.now;
            && (r.Refreshed? <==> !expired)
            && (r.Refreshed? ==> r.oldJti == w'.jti))
  {
    ExecuteKeepsInv(cfg, w, actions);
    var w' := Execute(cfg, w, actions);
    ServeLiveToken(cfg, w'.server, w'.jti, w'.token, salt);
  }

  /** When the refresh answer arrives, all calls that wait retry with one new token, the
      one the tab now holds; no call is left waiting and no other call is touched. */
  lemma WaitersShareTheNewToken(cfg: Config, w: World, i: nat)
    requires ValidConfig(cfg) && Inv(cfg, w)
    requires i < |w.net| && w.net[i].ToClient? && w.net[i].tokens.Some?
    ensures var w' := Next(cfg, w, Deliver(i));
      && w'.tab.access.Some? && w'.tab.stored == Some(w'.token) && w'.tab.inFlight.None? && w'.net == []
      && w'.tab.calls.Keys == w.tab.calls.Keys
      && forall k :: k in w.tab.calls ==>
           w'.tab.calls[k] == if w.tab.calls[k].Waiting? then Retrying(w'.tab.access.value) else w.tab.calls[k]
  {
    DeliverKeepsInv(cfg, w, i);
  }

  /** No refresh message is lost, token and session last until they are served, and a retry is
      answered by something other than a 401: no fresh access token is turned down, and the
      network does not fail the retry. */
  predicate CalmAction(cfg: Config, w: World, a: Action) {
    match a
    case Lose(i) => i >= |w.net|
    case Serve(i, _) =>
      i < |w.net| && w.net[i].ToServer? ==>
        && cfg.verifyRefresh(w.net[i].token, w.server.now).Some?
        && (w.jti < |w.server.sessions| ==> w.server.sessions[w.jti].expiresAt >= w.server.now)
    case AnswerRetry(call, status) =>
      call in w.tab.calls && w.tab.calls[call].Retrying? ==> status == Success || status == OtherStatus
    case _ => true
  }

  predicate Calm(cfg: Config, w: World, actions: seq<Action>)
    decreases actions
  {
    actions == [] || (CalmAction(cfg, w, actions[0]) && Calm(cfg, Next(cfg, w, actions[0]), actions[1..]))
  }

  /** The tab holds a pair of tokens, no refresh has failed, no call was told to log in again. */
  predicate SignedIn(w: World) {
    && w.tab.access.Some? && w.tab.stored.Some?
    && (forall i :: 0 <= i < |w.net| && w.net[i].ToClient? ==> w.net[i].tokens.Some?)
    && (forall k :: k in w.tab.calls ==> w.tab.calls[k] != Finished(SessionExpired))
  }

  /** The session is lost or will be: some call was told so, or the one message under way
      reports a failure. */
  ghost predicate Lost(w: World) {
    || (exists k :: k in w.tab.calls && w.tab.calls[k] == Finished(SessionExpired))
    || (w.net != [] && w.net[0].ToClient? && w.net[0].tokens.None?)
  }

  lemma LostIsNotSignedIn(w: World)
    requires Lost(w)
    ensures !SignedIn(w)
  {
  }

  lemma CalmStepStaysSignedIn(cfg: Config, w: World, a: Action)
    requires ValidConfig(cfg) && Inv(cfg, w) && SignedIn(w) && CalmAction(cfg, w, a)
    ensures SignedIn(Next(cfg, w, a))
  {
    if a.Serve? {
      ServeLiveToken(cfg, w.server, w.jti, w.token, a.salt);
    }
  }

  lemma UncalmStepLoses(cfg: Config, w: World, a: Action)
    requires ValidConfig(cfg) && Inv(cfg, w) && SignedIn(w) && !CalmAction(cfg, w, a)
    ensures Lost(Next(cfg, w, a))
  {
    var w' := Next(cfg, w, a);
    match a
    case Serve(i, salt) => ServeLiveToken(cfg, w.server, w.jti, w.token, salt);
    case AnswerRetry(call, _) => assert w'.tab.calls[call] == Finished(SessionExpired);
    case _ =>
  }

  lemma StepStaysLost(cfg: Config, w: World, a: Action)
    requires SingleFlight(w) && Lost(w)
    ensures Lost(Next(cfg, w, a))
  {
    var w' := Next(cfg, w, a);
    if exists k :: k in w.tab.calls && w.tab.calls[k] == Finished(SessionExpired) {
      var k :| k in w.tab.calls && w.tab.calls[k] == Finished(SessionExpired);
      assert w'.tab.calls[k] == Finished(SessionExpired);
    } else if a.Deliver? && a.i < |w.net| {
      var k :| k in w.tab.calls && IsWaiter(w.tab, k, w.net[0].promise);
      assert w'.tab.calls[k] == Finished(SessionExpired);
    }
  }

  lemma {:induction false} RunStaysLost(cfg: Config, w: World, actions: seq<Action>)
    requires SingleFlight(w) && Lost(w)
    ensures Lost(Execute(cfg, w, actions))
    decreases actions
  {
    if actions == [] {
    } else {
      NextKeepsFlight(cfg, w, actions[0]);
      StepStaysLost(cfg, w, actions[0]);
      RunStaysLost(cfg, Next(cfg, w, actions[0]), actions[1..]);
    }
  }

  /** Nobody is logged out, however many calls meet a 401 at once, exactly when the run is calm. */
  lemma {:induction false} SignedInIffCalm(cfg: Config, w: World, actions: seq<Action>)
    requires ValidConfig(cfg) && Inv(cfg, w) && SignedIn(w)
    ensures SignedIn(Execute(cfg, w, actions)) <==> Calm(cfg, w, actions)
    decreases actions
  {
    if actions == [] {
    } else {
      var w' := Next(cfg, w, actions[0]);
      NextKeepsInv(cfg, w, actions[0]);
      if CalmAction(cfg, w, actions[0]) {
        CalmStepStaysSignedIn(cfg, w, actions[0]);
        SignedInIffCalm(cfg, w', actions[1..]);
      } else {
        UncalmStepLoses(cfg, w, actions[0]);
        RunStaysLost(cfg, w', actions[1..]);
        LostIsNotSignedIn(Execute(cfg, w', actions[1..]));
      }
    }
  }

  /** A call that meets a 401 alone, up to the landing of its refresh. */
  function AfterRefresh(cfg: Config, w: World, call: nat, salt: nat): World {
    var asked := Next(cfg, Next(cfg, w, Begin(call, false)), Answer(call, Unauthorized));
    Next(cfg, Next(cfg, asked, Serve(0, salt)), Deliver(0))
  }

  lemma RefreshedCall(cfg: Config, w: World, call: nat, salt: nat)
    requires ValidConfig(cfg) && Inv(cfg, w) && SignedIn(w) && w.net == [] && call !in w.tab.calls
    requires cfg.verifyRefresh(w.token, w.server.now).Some? && w.server.sessions[w.jti].expiresAt >= w.server.now
    ensures var w' := AfterRefresh(cfg, w, call, salt);
      call in w'.tab.calls && w'.tab.calls[call].Retrying? && StillLive(w'.server, w'.jti)
  {
    ServeLiveToken(cfg, w.server, w.jti, w.token, salt);
  }

  /** An input for the log-out that the comment in client.ts does not speak of: the refresh
      went well, the retry finds no network, and the tab drops the tokens of a live session. */
  lemma RetryWithoutNetworkLogsOut(cfg: Config, w: World, call: nat, salt: nat)
    requires ValidConfig(cfg) && Inv(cfg, w) && SignedIn(w) && w.net == [] && call !in w.tab.calls
    requires cfg.verifyRefresh(w.token, w.server.now).Some? && w.server.sessions[w.jti].expiresAt >= w.server.now
    ensures var w' := Next(cfg, AfterRefresh(cfg, w, call, salt), AnswerRetry(call, NoResponse));
      && w'.tab.stored.None? && w'.tab.access.None?
      && call in w'.tab.calls && w'.tab.calls[call] == Finished(SessionExpired)
      && StillLive(w'.server, w'.jti)
  {
    RefreshedCall(cfg, w, call, salt);
  }

  /** Losing a refresh message costs the session but never a second presentation: when the
      failure arrives, the tab forgets its tokens and every waiter is told so. */
  lemma LostRefreshEndsTheSession(cfg: Config, w: World, i: nat)
    requires ValidConfig(cfg) && Inv(cfg, w)
    requires i < |w.net| && w.net[i].ToClient? && w.net[i].tokens.None?
    ensures var w' := Next(cfg, w, Deliver(i));
      && w'.tab.stored.None? && w'.tab.access.None? && w'.net == []
      && forall k :: k in w.tab.calls && w.tab.calls[k].Waiting? ==> w'.tab.calls[k] == Finished(SessionExpired)
  {
    DeliverKeepsInv(cfg, w, i);
  }

  function Departed(tab: Tab): set<nat> {
    set k | k in tab.calls && !tab.calls[k].Sent?
  }

  /** Each call starts at most one refresh. */
  lemma {:induction false} RefreshesBoundedByCalls(cfg: Config, w: World, actions: seq<Action>)
    requires w.tab.nextPromise <= |Departed(w.tab)|
    ensures var w' := Execute(cfg, w, actions); w'.tab.nextPromise <= |Departed(w'.tab)| <= |w'.tab.calls|
    decreases actions
  {
    if actions == [] {
      SubsetSize(Departed(w.tab), w.tab.calls.Keys);
    } else {
      var w1 := Next(cfg, w, actions[0]);
      if actions[0].Answer? && actions[0].call in w.tab.calls && w.tab.calls[actions[0].call].Sent? {
        assert Departed(w1.tab) == Departed(w.tab) + {actions[0].call};
      } else {
        assert Departed(w1.tab) == Departed(w.tab);
      }
      RefreshesBoundedByCalls(cfg, w1, actions[1..]);
    }
  }

  lemma {:induction false} SubsetSize(a: set<nat>, b: set<nat>)
    requires a <= b
    ensures |a| <= |b|
    decreases a
  {
    if a == {} {
    } else {
      var x :| x in a;
      SubsetSize(a - {x}, b - {x});
    }
  }

  /** Whatever step comes between, the server refuses a token it has already rotated. */
  lemma SecondUseRefused(cfg: Config, s: Store, token: string, salt: nat, op: Op, salt': nat)
    requires ValidConfig(cfg) && RefreshStep(cfg, s, token, salt).1.Refreshed?
    ensures RefreshStep(cfg, Step(cfg, RefreshStep(cfg, s, token, salt).0, op).0, token, salt').1.Failed?
  {
    var s1 := RefreshStep(cfg, s, token, salt).0;
    RefreshTokenWorksOnce(cfg, s, token, salt, [op], salt');
    assert Run(cfg, Step(cfg, s1, op).0, [op][1..]) == Step(cfg, s1, op).0;
  }

  // ----------------------------------------------------------------- the client code

  /** Module state of client.ts together with what the handlers of AuthProvider keep. */
  class ApiClient {
    var access: Option<string>
    var stored: Option<string>
    var inFlight: Option<nat>
    var nextPromise: nat
    var calls: map<nat, Phase>
    var outbox: seq<Message>

    function Snapshot(): Tab
      reads this
    {
      Tab(access, stored, inFlight, nextPromise, calls)
    }

    constructor (access: Option<string>, stored: Option<string>)
      ensures Snapshot() == Tab(access, stored, None, 0, map[]) && outbox == []
    {
      this.access, this.stored := access, stored;
      inFlight, nextPromise, calls, outbox := None, 0, map[], [];
    }

    method ClearSession()
      modifies this`access, this`stored
      ensures Snapshot() == Clear(old(Snapshot()))
    {
      access := None;
      stored := None;
    }

    method Refresh() returns (promise: Option<nat>)
      modifies this`inFlight, this`nextPromise, this`outbox
      ensures var (tab, p, out) := RefreshOnce(old(Snapshot()));
        Snapshot() == tab && promise == p && outbox == old(outbox) + out
    {
      if inFlight.None? {
        if stored.None? { return None; }
        inFlight := Some(nextPromise);
        outbox := outbox + [ToServer(nextPromise, stored.value)];
        nextPromise := nextPromise + 1;
      }
      promise := inFlight;
    }

    method Begin(call: nat, skipAuthRetry: bool)
      modifies this`calls
      ensures Snapshot() == BeginCall(old(Snapshot()), call, skipAuthRetry)
    {
      if call !in calls {
        calls := calls[call := Sent(skipAuthRetry, access)];
      }
    }

    method OnAnswer(call: nat, status: Status)
      modifies this
      ensures var (tab, out) := FirstAnswer(old(Snapshot()), call, status);
        Snapshot() == tab && outbox == old(outbox) + out
    {
      if call !in calls || !calls[call].Sent? { return; }
      if status == Unauthorized && !calls[call].skipAuthRetry {
        var promise := Refresh();
        if promise.None? {
          ClearSession();
          calls := calls[call := Finished(SessionExpired)];
        } else {
          calls := calls[call := Waiting(promise.value)];
        }
        return;
      }
      var outcome := match status
        case Success => Succeeded
        case NoResponse => NetworkError
        case _ => Refused;
      calls := calls[call := Finished(outcome)];
    }

    /** The shared promise settles; the waiters' continuations run one after the other. */
    method OnSettled(promise: nat, tokens: Option<(string, string)>)
      modifies this`access, this`stored, this`inFlight, this`calls
      ensures Snapshot() == Settle(old(Snapshot()), promise, tokens)
    {
      ghost var before := Snapshot();
      if tokens.Some? {
        access, stored := Some(tokens.value.0), Some(tokens.value.1);
      }
      inFlight := None;
      var next := if tokens.Some? then Retrying(tokens.value.0) else Finished(SessionExpired);
      var waiters := set k | k in calls && calls[k] == Waiting(promise);
      ghost var all := waiters;
      while waiters != {}
        invariant waiters <= all && inFlight == None
        invariant calls.Keys == old(calls).Keys
        invariant forall k :: k in calls ==> calls[k] == if k in all - waiters then next else old(calls)[k]
        invariant tokens.Some? ==> access == Some(tokens.value.0) && stored == Some(tokens.value.1)
        invariant tokens.None? && waiters == all ==> access == old(access) && stored == old(stored)
        invariant tokens.None? && waiters != all ==> access == None && stored == None
        decreases waiters
      {
        var k :| k in waiters;
        if tokens.None? { ClearSession(); }
        calls := calls[k := next];
        waiters := waiters - {k};
      }
      assert all - waiters == all;
      assert calls == Resume(old(calls), promise, next);
      assert HasWaiter(before, promise) <==> all != {} by {
        assert forall k :: k in all <==> k in before.calls && IsWaiter(before, k, promise);
      }
    }

    method OnRetryAnswer(call: nat, status: Status)
      modifies this`access, this`stored, this`calls
      ensures Snapshot() == RetryAnswer(old(Snapshot()), call, status)
    {
      if call !in calls || !calls[call].Retrying? { return; }
      match status {
        case Success => calls := calls[call := Finished(Succeeded)];
        case OtherStatus => calls := calls[call := Finished(Refused)];
        case _ =>
          ClearSession();
          calls := calls[call := Finished(SessionExpired)];
      }
    }
  }
}
