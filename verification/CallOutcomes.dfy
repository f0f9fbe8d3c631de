/** What an apiFetch call of the web client ends with (apps/admin/src/api/client.ts), told
    from outside: how it was begun, which answers it got, and how its refresh went. */
module CallOutcomes {
  import opened Wrappers
  import opened Identity
  import opened RefreshProtocol

  /** An answer of the server, to the first attempt or to the retry. */
  datatype Heard = Heard(status: Status, ofRetry: bool)

  /** `refresh` tells how the refresh of the call's 401 went, once it is known. */
  datatype Record = Record(skipAuthRetry: bool, carried: Option<string>, last: Option<Heard>, refresh: Option<bool>)

  type Log = map<nat, Record>

  /** The call met a 401 and has not been told how the refresh went. */
  predicate AwaitsRefresh(r: Record) {
    r.last == Some(Heard(Unauthorized, false)) && !r.skipAuthRetry && r.refresh.None?
  }

  function Settled(log: Log, ok: bool): Log {
    map k | k in log :: if AwaitsRefresh(log[k]) then log[k].(refresh := Some(ok)) else log[k]
  }

  /** The first answer; where there is no token to refresh with, the refresh fails at once. */
  function FirstHeard(tab: Tab, r: Record, status: Status): Record {
    var hopeless := status == Unauthorized && !r.skipAuthRetry && tab.inFlight.None? && tab.stored.None?;
    r.(last := Some(Heard(status, false)), refresh := if hopeless then Some(false) else r.refresh)
  }

  function Note(w: World, log: Log, a: Action): Log {
    match a
    case Begin(call, skip) => if call in log then log else log[call := Record(skip, w.tab.access, None, None)]
    case Answer(call, status) =>
      if call in log && log[call].last.None? then log[call := FirstHeard(w.tab, log[call], status)] else log
    case AnswerRetry(call, status) =>
      if call in log && log[call].refresh == Some(true) && log[call].last == Some(Heard(Unauthorized, false))
      then log[call := log[call].(last := Some(Heard(status, true)))] else log
    case Deliver(i) => if i < |w.net| && w.net[i].ToClient? then Settled(log, w.net[i].tokens.Some?) else log
    case _ => log
  }

  function Follow(cfg: Config, w: World, log: Log, actions: seq<Action>): Log
    decreases actions
  {
    if actions == [] then log else Follow(cfg, Next(cfg, w, actions[0]), Note(w, log, actions[0]), actions[1..])
  }

  /** Where a call of this record is. */
  predicate Fits(phase: Phase, r: Record) {
    if r.last.None? then phase == Sent(r.skipAuthRetry, r.carried)
    else if r.last.value.status == Success then phase == Finished(Succeeded)
    else if r.last.value.status == OtherStatus then phase == Finished(Refused)
    else if r.last.value.ofRetry then phase == Finished(SessionExpired)
    else if r.last.value.status == NoResponse then phase == Finished(NetworkError)
    else if r.skipAuthRetry then phase == Finished(Refused)
    else if r.refresh.None? then phase.Waiting?
    else if r.refresh.value then phase.Retrying?
    else phase == Finished(SessionExpired)
  }

  /** Where the record says the call is, it can be nowhere else. */
  predicate Ends(phase: Phase, r: Record) {
    var last, skip := r.last, r.skipAuthRetry;
    && (phase == Finished(Succeeded) <==> last.Some? && last.value.status == Success)
    && (phase == Finished(Refused) <==>
          last.Some? && (last.value.status == OtherStatus || (last.value == Heard(Unauthorized, false) && skip)))
    && (phase == Finished(NetworkError) <==> last == Some(Heard(NoResponse, false)))
    && (phase == Finished(SessionExpired) <==>
          || (last == Some(Heard(Unauthorized, false)) && !skip && r.refresh == Some(false))
          || (last.Some? && last.value.ofRetry && last.value.status in {Unauthorized, NoResponse}))
    && (phase.Sent? <==> last.None?) && (phase.Sent? ==> phase == Sent(skip, r.carried))
    && (phase.Waiting? <==> AwaitsRefresh(r))
    && (skip ==> !phase.Waiting? && !phase.Retrying?)
  }

  /** A retry is made for a refresh that went well, and only by a call that acts on its 401. */
  predicate Sensible(r: Record) {
    && (r.last.None? ==> r.refresh.None?)
    && (r.refresh.Some? || (r.last.Some? && r.last.value.ofRetry) ==> !r.skipAuthRetry)
    && (r.refresh == Some(true) ==> r.last.Some?)
  }

  lemma FitsEnds(phase: Phase, r: Record)
    requires Fits(phase, r) && Sensible(r)
    ensures Ends(phase, r)
  {
  }

  ghost predicate Logged(tab: Tab, log: Log) {
    && log.Keys == tab.calls.Keys
    && forall k :: k in log ==> Fits(tab.calls[k], log[k]) && Sensible(log[k])
  }

  lemma OneCallMoves(tab: Tab, tab': Tab, log: Log, call: nat, r: Record)
    requires Logged(tab, log) && call in tab'.calls && tab'.calls == tab.calls[call := tab'.calls[call]]
    requires Fits(tab'.calls[call], r) && Sensible(r)
    ensures Logged(tab', log[call := r])
  {
  }

  lemma AnswerKeepsLogged(cfg: Config, w: World, log: Log, call: nat, status: Status)
    requires SingleFlight(w) && Logged(w.tab, log)
    ensures Logged(Next(cfg, w, Answer(call, status)).tab, Note(w, log, Answer(call, status)))
  {
    if call in log {
      assert Fits(w.tab.calls[call], log[call]);
      if log[call].last.None? {
        OneCallMoves(w.tab, Next(cfg, w, Answer(call, status)).tab, log, call, FirstHeard(w.tab, log[call], status));
      }
    }
  }

  lemma RetryKeepsLogged(cfg: Config, w: World, log: Log, call: nat, status: Status)
    requires Logged(w.tab, log)
    ensures Logged(Next(cfg, w, AnswerRetry(call, status)).tab, Note(w, log, AnswerRetry(call, status)))
  {
    if call in log {
      assert Fits(w.tab.calls[call], log[call]);
      if w.tab.calls[call].Retrying? {
        OneCallMoves(w.tab, Next(cfg, w, AnswerRetry(call, status)).tab, log, call, log[call].(last := Some(Heard(status, true))));
      }
    }
  }

  lemma BeginKeepsLogged(cfg: Config, w: World, log: Log, call: nat, skip: bool)
    requires Logged(w.tab, log)
    ensures Logged(Next(cfg, w, Begin(call, skip)).tab, Note(w, log, Begin(call, skip)))
  {
    if call !in log {
      OneCallMoves(w.tab, Next(cfg, w, Begin(call, skip)).tab, log, call, Record(skip, w.tab.access, None, None));
    }
  }

  lemma DeliverKeepsLogged(cfg: Config, w: World, log: Log, i: nat)
    requires SingleFlight(w) && Logged(w.tab, log)
    ensures Logged(Next(cfg, w, Deliver(i)).tab, Note(w, log, Deliver(i)))
  {
    if i < |w.net| && w.net[i].ToClient? {
      var tab', log' := Next(cfg, w, Deliver(i)).tab, Note(w, log, Deliver(i));
      forall k | k in log' ensures Fits(tab'.calls[k], log'[k]) && Sensible(log'[k]) {
        assert Fits(w.tab.calls[k], log[k]);
        assert w.tab.calls[k].Waiting? ==> w.tab.calls[k] == Waiting(w.net[i].promise);
      }
    }
  }

  lemma NextKeepsLogged(cfg: Config, w: World, log: Log, a: Action)
    requires SingleFlight(w) && Logged(w.tab, log)
    ensures Logged(Next(cfg, w, a).tab, Note(w, log, a))
  {
    match a
    case Begin(call, skip) => BeginKeepsLogged(cfg, w, log, call, skip);
    case Answer(call, status) => AnswerKeepsLogged(cfg, w, log, call, status);
    case AnswerRetry(call, status) => RetryKeepsLogged(cfg, w, log, call, status);
    case Deliver(i) => DeliverKeepsLogged(cfg, w, log, i);
    case _ =>
  }

  lemma {:induction false} RunKeepsLogged(cfg: Config, w: World, log: Log, actions: seq<Action>)
    requires SingleFlight(w) && Logged(w.tab, log)
    ensures Logged(Execute(cfg, w, actions).tab, Follow(cfg, w, log, actions))
    decreases actions
  {
    if actions == [] {
    } else {
      NextKeepsLogged(cfg, w, log, actions[0]);
      NextKeepsFlight(cfg, w, actions[0]);
      RunKeepsLogged(cfg, Next(cfg, w, actions[0]), Note(w, log, actions[0]), actions[1..]);
    }
  }

  // ------------------------------------------------------------------ main results

  /** In every run of any number of calls: a call ends well exactly when the last answer it got
      is a success. It is refused exactly when that answer is another status, or a 401 that it
      was begun not to act on. It reports the network exactly when its first attempt got no
      answer, and the session exactly when its refresh failed or its retry met a 401 or no
      network. A call begun with skipAuthRetry never waits for a refresh. */
  lemma OutcomesFollowAnswers(cfg: Config, w: World, actions: seq<Action>, call: nat)
    requires SingleFlight(w) && w.tab.calls == map[]
    ensures var tab, log := Execute(cfg, w, actions).tab, Follow(cfg, w, map[], actions);
      && (call in tab.calls <==> call in log)
      && (call in log ==> Ends(tab.calls[call], log[call]))
  {
    RunKeepsLogged(cfg, w, map[], actions);
    var tab, log := Execute(cfg, w, actions).tab, Follow(cfg, w, map[], actions);
    if call in log { FitsEnds(tab.calls[call], log[call]); }
  }

  /** The answer may start a refresh: a first 401 that the call acts on, with no refresh under
      way and a token to present. */
  predicate StartsRefresh(w: World, a: Action) {
    && a.Answer? && a.status == Unauthorized && a.call in w.tab.calls && w.tab.calls[a.call].Sent?
    && !w.tab.calls[a.call].skipAuthRetry && w.tab.inFlight.None? && w.tab.stored.Some?
  }

  /** A step sends a refresh exactly in that case, and then one that presents the stored token. */
  lemma RefreshStartedIff(cfg: Config, w: World, a: Action)
    requires SingleFlight(w)
    ensures var net' := Next(cfg, w, a).net;
      && (StartsRefresh(w, a) <==> |w.net| < |net'|)
      && (StartsRefresh(w, a) ==> exists p :: net' == w.net + [ToServer(p, w.tab.stored.value)])
  {
    if StartsRefresh(w, a) {
      assert Next(cfg, w, a).net == w.net + [ToServer(w.tab.nextPromise, w.tab.stored.value)];
    } else if a.Answer? {
      assert w.net + [] == w.net;
    }
  }

  /** Some call is told by this step that the session is over. */
  ghost predicate Expires(tab: Tab, tab': Tab) {
    exists k :: k in tab.calls && k in tab'.calls && tab.calls[k] != Finished(SessionExpired) && tab'.calls[k] == Finished(SessionExpired)
  }

  /** The step stores this pair. */
  predicate Brings(w: World, a: Action, pair: (string, string)) {
    a.Deliver? && a.i < |w.net| && w.net[a.i].ToClient? && w.net[a.i].tokens == Some(pair)
  }

  lemma DeliveryBringsOrExpires(cfg: Config, w: World, i: nat)
    requires SingleFlight(w) && i < |w.net| && w.net[i].ToClient?
    ensures var tab' := Next(cfg, w, Deliver(i)).tab;
      match w.net[i].tokens
      case Some(pair) => tab'.access == Some(pair.0) && tab'.stored == Some(pair.1) && !Expires(w.tab, tab')
      case None => tab'.access.None? && tab'.stored.None? && Expires(w.tab, tab')
  {
    if w.net[i].tokens.None? {
      var k :| k in w.tab.calls && IsWaiter(w.tab, k, w.net[i].promise);
      assert Next(cfg, w, Deliver(i)).tab.calls[k] == Finished(SessionExpired);
    }
  }

  /** A step that is no delivery moves one call at most. */
  lemma OthersStay(cfg: Config, w: World, a: Action)
    requires !a.Deliver?
    ensures var calls' := Next(cfg, w, a).tab.calls;
      forall k :: k in w.tab.calls ==>
        && k in calls'
        && (calls'[k] != w.tab.calls[k] ==> (a.Answer? && a.call == k) || (a.AnswerRetry? && a.call == k))
  {
  }

  /** The tab forgets its tokens exactly when a call is told that the session is over, takes
      the pair that a refresh brings, and keeps them otherwise. */
  lemma TokensGoIffExpired(cfg: Config, w: World, a: Action)
    requires SingleFlight(w)
    ensures var tab, tab' := w.tab, Next(cfg, w, a).tab;
      && (Expires(tab, tab') ==> tab'.access.None? && tab'.stored.None?)
      && (forall pair :: Brings(w, a, pair) ==> tab'.access == Some(pair.0) && tab'.stored == Some(pair.1))
      && (!Expires(tab, tab') && !(exists pair :: Brings(w, a, pair)) ==> tab'.access == tab.access && tab'.stored == tab.stored)
  {
    var tab' := Next(cfg, w, a).tab;
    if a.Deliver? {
      if a.i < |w.net| && w.net[a.i].ToClient? {
        DeliveryBringsOrExpires(cfg, w, a.i);
        assert w.net[a.i].tokens.Some? ==> Brings(w, a, w.net[a.i].tokens.value);
      }
    } else {
      OthersStay(cfg, w, a);
      if tab'.access != w.tab.access || tab'.stored != w.tab.stored {
        assert tab'.calls[a.call] == Finished(SessionExpired) && w.tab.calls[a.call] != Finished(SessionExpired);
      }
    }
  }
}
