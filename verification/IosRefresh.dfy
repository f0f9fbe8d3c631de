/** APIClient.swift: an actor whose refreshTask is set and cleared around awaits. The actor
    gives up control at every await, so a step is one stretch between two awaits, of a call
    or of the refresh task itself; the task variable is cleared only when the call that
    started the task resumes, which may be well after the task has stored the tokens. */
module IosRefresh {
  import opened Wrappers
  import opened Identity
  import opened AccountLifecycle

  datatype Task =
    | Starting
    | AtServer(presented: string)
    | Answered(tokens: Option<(string, string)>)
    | Ended(ok: bool)

  datatype Call =
    | Sent(carried: Option<string>)
    | Awaiting(task: nat, starter: bool)
    | Resumed
    | Retrying(carried: Option<string>)
    | Finished(ok: bool)

  datatype App = App(server: Store, access: Option<string>, stored: Option<string>, refreshTask: Option<nat>,
                     tasks: seq<Task>, calls: map<nat, Call>, jti: nat, token: string)

  datatype Action =
    | Begin(call: nat)
    | Unauthorized(call: nat)
    | ReadToken(task: nat)
    | Serve(task: nat, salt: nat)
    | Lose(task: nat)
    | Complete(task: nat)
    | Resume(call: nat)
    | BuildRetry(call: nat)
    | Elsewhere(op: Op)

  /** performRefresh up to its await: join the task that is set, or start one. */
  function PerformRefresh(a: App, call: nat): App {
    match a.refreshTask
    case Some(t) => a.(calls := a.calls[call := Awaiting(t, false)])
    case None =>
      var t := |a.tasks|;
      a.(tasks := a.tasks + [Starting], refreshTask := Some(t), calls := a.calls[call := Awaiting(t, true)])
  }

  predicate Running(a: App, t: nat) {
    t < |a.tasks| && !a.tasks[t].Ended?
  }

  function Next(cfg: Config, a: App, act: Action): App {
    match act
    case Begin(k) => if k in a.calls then a else a.(calls := a.calls[k := Sent(a.access)])
    case Unauthorized(k) => if k in a.calls && a.calls[k].Sent? then PerformRefresh(a, k) else a
    case ReadToken(t) =>
      if t < |a.tasks| && a.tasks[t].Starting? then
        match a.stored
        case Some(r) => a.(tasks := a.tasks[t := AtServer(r)])
        case None => a.(tasks := a.tasks[t := Ended(false)], access := None, stored := None)
      else a
    case Serve(t, salt) =>
      if t < |a.tasks| && a.tasks[t].AtServer? then
        var (s', reply) := RefreshStep(cfg, a.server, a.tasks[t].presented, salt);
        var answer := if reply.Refreshed? then Some((reply.access, reply.refresh)) else None;
        var a' := a.(server := s', tasks := a.tasks[t := Answered(answer)]);
        if reply.Refreshed? then a'.(jti := reply.jti, token := reply.refresh) else a'
      else a
    case Lose(t) =>
      if t < |a.tasks| && (a.tasks[t].AtServer? || a.tasks[t].Answered?) then
        a.(tasks := a.tasks[t := Answered(None)])
      else a
    case Complete(t) =>
      if t < |a.tasks| && a.tasks[t].Answered? then
        match a.tasks[t].tokens
        case Some((access, refresh)) =>
          a.(tasks := a.tasks[t := Ended(true)], access := Some(access), stored := Some(refresh))
        case None => a.(tasks := a.tasks[t := Ended(false)], access := None, stored := None)
      else a
    case Resume(k) =>
      if k in a.calls && a.calls[k].Awaiting? && a.calls[k].task < |a.tasks| && a.tasks[a.calls[k].task].Ended? then
        var a' := if a.calls[k].starter then a.(refreshTask := None) else a;
        a'.(calls := a.calls[k := if a.tasks[a.calls[k].task].ok then Resumed else Finished(false)])
      else a
    case BuildRetry(k) =>
      if k in a.calls && a.calls[k].Resumed? then a.(calls := a.calls[k := Retrying(a.access)]) else a
    case Elsewhere(op) =>
      var s' := Step(cfg, a.server, op).0;
      if StillLive(s', a.jti) then a.(server := s') else a
  }

  function Execute(cfg: Config, a: App, actions: seq<Action>): App
    decreases actions
  {
    if actions == [] then a else Execute(cfg, Next(cfg, a, actions[0]), actions[1..])
  }

  // -------------------------------------------------------------------- invariant

  predicate IsStarter(a: App, call: nat, t: nat) {
    call in a.calls && a.calls[call] == Awaiting(t, true)
  }

  /** The task variable is set exactly while the call that started the task has not
      resumed, and only that task can still be running. */
  ghost predicate OneTask(a: App) {
    && (forall t :: 0 <= t < |a.tasks| && Running(a, t) ==> a.refreshTask == Some(t))
    && (a.refreshTask.Some? ==> a.refreshTask.value < |a.tasks| && exists k :: IsStarter(a, k, a.refreshTask.value))
    && (forall k :: k in a.calls && a.calls[k].Awaiting? ==> a.calls[k].task < |a.tasks|)
    && (forall k, t: nat :: IsStarter(a, k, t) ==> a.refreshTask == Some(t))
    && (forall k, k', t: nat, t': nat :: IsStarter(a, k, t) && IsStarter(a, k', t') ==> k == k')
  }

  predicate StoredFresh(a: App) {
    a.stored == None || a.stored == Some(a.token)
  }

  ghost predicate Fresh(a: App) {
    if a.refreshTask.None? || a.refreshTask.value >= |a.tasks| then StoredFresh(a)
    else match a.tasks[a.refreshTask.value]
      case Starting => StoredFresh(a)
      case AtServer(presented) => presented == a.token && StoredFresh(a)
      case Answered(Some((_, refresh))) => refresh == a.token
      case Answered(None) => true
      case Ended(_) => StoredFresh(a)
  }

  ghost predicate Inv(cfg: Config, a: App) {
    && Consistent(a.server)
    && HoldsLiveSession(cfg, a.server, a.jti, a.token)
    && OneTask(a)
    && Fresh(a)
  }

  lemma TaskStepKeepsOneTask(a: App, t: nat, task: Task, a': App)
    requires OneTask(a) && t < |a.tasks| && Running(a, t)
    requires a'.tasks == a.tasks[t := task] && a'.refreshTask == a.refreshTask && a'.calls == a.calls
    ensures OneTask(a')
  {
    var k :| IsStarter(a, k, a.refreshTask.value);
    assert IsStarter(a', k, a'.refreshTask.value);
    assert forall k, t: nat :: IsStarter(a', k, t) <==> IsStarter(a, k, t);
    assert forall u :: 0 <= u < |a'.tasks| && Running(a', u) ==> Running(a, u);
  }

  lemma StartKeepsInv(cfg: Config, a: App, k: nat)
    requires Inv(cfg, a)
    ensures Inv(cfg, Next(cfg, a, Unauthorized(k)))
  {
    var a' := Next(cfg, a, Unauthorized(k));
    if k in a.calls && a.calls[k].Sent? {
      forall j, t: nat | j != k ensures IsStarter(a', j, t) <==> IsStarter(a, j, t) {}
      if a.refreshTask.Some? {
        var s :| IsStarter(a, s, a.refreshTask.value);
        assert s != k && IsStarter(a', s, a.refreshTask.value);
      } else {
        assert IsStarter(a', k, |a.tasks|);
        assert forall u :: 0 <= u < |a.tasks| ==> !Running(a, u);
        assert forall u :: 0 <= u < |a.tasks| ==> a'.tasks[u] == a.tasks[u];
      }
    }
  }

  lemma ResumeKeepsInv(cfg: Config, a: App, k: nat)
    requires Inv(cfg, a)
    ensures Inv(cfg, Next(cfg, a, Resume(k)))
  {
    var a' := Next(cfg, a, Resume(k));
    if a' != a {
      forall j, t: nat | j != k ensures IsStarter(a', j, t) <==> IsStarter(a, j, t) {}
      assert forall u :: 0 <= u < |a.tasks| ==> (Running(a', u) <==> Running(a, u));
      if a.calls[k].starter {
        assert IsStarter(a, k, a.calls[k].task);
      } else if a.refreshTask.Some? {
        var s :| IsStarter(a, s, a.refreshTask.value);
        assert s != k && IsStarter(a', s, a.refreshTask.value);
      }
    }
  }

  lemma CallStepKeepsInv(cfg: Config, a: App, act: Action)
    requires Inv(cfg, a) && (act.Begin? || act.BuildRetry?)
    ensures Inv(cfg, Next(cfg, a, act))
  {
    var a' := Next(cfg, a, act);
    forall j, t: nat ensures IsStarter(a', j, t) <==> IsStarter(a, j, t) {}
    if a.refreshTask.Some? {
      var s :| IsStarter(a, s, a.refreshTask.value);
      assert IsStarter(a', s, a.refreshTask.value);
    }
    assert forall u :: 0 <= u < |a.tasks| ==> (Running(a', u) <==> Running(a, u));
  }

  lemma TaskStepKeepsInv(cfg: Config, a: App, act: Action)
    requires ValidConfig(cfg) && Inv(cfg, a)
    requires act.ReadToken? || act.Serve? || act.Lose? || act.Complete?
    ensures Inv(cfg, Next(cfg, a, act))
  {
    var a' := Next(cfg, a, act);
    if act.task < |a.tasks| && Running(a, act.task) {
      TaskStepKeepsOneTask(a, act.task, a'.tasks[act.task], a');
      if act.Serve? && a.tasks[act.task].AtServer? {
        ServeLiveToken(cfg, a.server, a.jti, a.token, act.salt);
        StepKeepsConsistent(cfg, a.server, Op.Refresh(a.token, act.salt));
      }
    }
  }

  lemma NextKeepsInv(cfg: Config, a: App, act: Action)
    requires ValidConfig(cfg) && Inv(cfg, a)
    ensures Inv(cfg, Next(cfg, a, act))
  {
    match act
    case Begin(k) => CallStepKeepsInv(cfg, a, act);
    case BuildRetry(k) => CallStepKeepsInv(cfg, a, act);
    case Unauthorized(k) => StartKeepsInv(cfg, a, k);
    case Resume(k) => ResumeKeepsInv(cfg, a, k);
    case Elsewhere(op) =>
      var a' := Next(cfg, a, act);
      if StillLive(Step(cfg, a.server, op).0, a.jti) {
        StepKeepsConsistent(cfg, a.server, op);
        StepKeepsHeldSession(cfg, a.server, op, a.jti, a.token);
      }
      assert forall k, t: nat :: IsStarter(a', k, t) <==> IsStarter(a, k, t);
      assert forall u :: 0 <= u < |a.tasks| ==> (Running(a', u) <==> Running(a, u));
    case _ => TaskStepKeepsInv(cfg, a, act);
  }

  lemma {:induction false} ExecuteKeepsInv(cfg: Config, a: App, actions: seq<Action>)
    requires ValidConfig(cfg) && Inv(cfg, a)
    ensures Inv(cfg, Execute(cfg, a, actions))
    decreases actions
  {
    if actions == [] {
    } else {
      NextKeepsInv(cfg, a, actions[0]);
      ExecuteKeepsInv(cfg, Next(cfg, a, actions[0]), actions[1..]);
    }
  }

  // ------------------------------------------------------------------ main results

  /** A login puts the app into the invariant. */
  lemma LoginEstablishesInv(cfg: Config, s: Store, raw: string, code: string, salt: nat)
    requires ValidConfig(cfg) && Consistent(s) && VerifyCodeStep(cfg, s, raw, code, salt).1.LoggedIn?
    ensures var (s', r) := VerifyCodeStep(cfg, s, raw, code, salt);
      Inv(cfg, App(s', Some(r.access), Some(r.refresh), None, [], map[], r.jti, r.refresh))
  {
    StepKeepsConsistent(cfg, s, Op.VerifyCode(raw, code, salt));
  }

  /** In every interleaving of the actor's stretches at most one refresh task is running,
      and a refresh that is at the server presents the live session, lost messages or not. */
  lemma {:induction false} RefreshesPresentTheLiveSession(cfg: Config, a: App, actions: seq<Action>, t: nat, u: nat, salt: nat)
    requires ValidConfig(cfg) && Inv(cfg, a)
    ensures var a' := Execute(cfg, a, actions);
      && StillLive(a'.server, a'.jti)
      && (Running(a', t) && Running(a', u) ==> t == u)
      && (t < |a'.tasks| && a'.tasks[t].AtServer? ==>
            (RefreshStep(cfg, a'.server, a'.tasks[t].presented, salt).1.Refreshed? <==>
             cfg.verifyRefresh(a'.tasks[t].presented, a'.server.now).Some?
             && a'.server.sessions[a'.jti].expiresAt >= a'.server.now))
  {
    ExecuteKeepsInv(cfg, a, actions);
    var a' := Execute(cfg, a, actions);
    ServeLiveToken(cfg, a'.server, a'.jti, a'.token, salt);
    if t < |a'.tasks| && a'.tasks[t].AtServer? {
      assert Running(a', t);
    }
  }

  /** A call that joins a task already ended, because its starter has not resumed yet,
      still goes on with the pair that task stored: no second refresh, no stale token. */
  lemma LateJoinerUsesStoredPair(cfg: Config, a: App, k: nat)
    requires ValidConfig(cfg) && Inv(cfg, a)
    requires k in a.calls && a.calls[k].Sent?
    requires a.refreshTask.Some? && a.tasks[a.refreshTask.value] == Ended(true)
    ensures var resumed := Next(cfg, Next(cfg, a, Unauthorized(k)), Resume(k));
      && resumed.calls[k] == Resumed && resumed.tasks == a.tasks && resumed.refreshTask == a.refreshTask
      && Next(cfg, resumed, BuildRetry(k)).calls[k] == Retrying(a.access)
      && StoredFresh(resumed) && resumed.stored == a.stored
  {
  }

  // ------------------------------------------------------- what a retry carries

  /** No access token, or one that was signed for this session. */
  ghost predicate AccessOf(cfg: Config, jti: nat, access: Option<string>) {
    access.None? || exists at :: access.value == cfg.signAccess(jti, at)
  }

  /** An answer of the server waits to be stored. */
  predicate AnswerPending(a: App) {
    a.refreshTask.Some? && a.refreshTask.value < |a.tasks| && a.tasks[a.refreshTask.value].Answered?
  }

  /** The access token in the store belongs to the live session, or else an answer waits that
      brings the one that does, or a failure waits that clears the store. */
  ghost predicate AccessFits(cfg: Config, a: App) {
    if !AnswerPending(a) then AccessOf(cfg, a.jti, a.access)
    else match a.tasks[a.refreshTask.value].tokens
      case Some((access, _)) => AccessOf(cfg, a.jti, Some(access))
      case None => true
  }

  lemma TaskStepKeepsAccess(cfg: Config, a: App, act: Action)
    requires ValidConfig(cfg) && Inv(cfg, a) && AccessFits(cfg, a)
    requires act.ReadToken? || act.Serve? || act.Lose? || act.Complete?
    ensures AccessFits(cfg, Next(cfg, a, act))
  {
    if act.task < |a.tasks| {
      assert Running(a, act.task) ==> a.refreshTask == Some(act.task);
      if act.Serve? && a.tasks[act.task].AtServer? {
        ServeLiveToken(cfg, a.server, a.jti, a.token, act.salt);
      }
    }
  }

  lemma ResumeKeepsAccess(cfg: Config, a: App, k: nat)
    requires Inv(cfg, a) && AccessFits(cfg, a)
    ensures AccessFits(cfg, Next(cfg, a, Resume(k)))
  {
    if k in a.calls && a.calls[k].Awaiting? && a.calls[k].starter {
      assert IsStarter(a, k, a.calls[k].task);
    }
  }

  lemma NextKeepsAccess(cfg: Config, a: App, act: Action)
    requires ValidConfig(cfg) && Inv(cfg, a) && AccessFits(cfg, a)
    ensures AccessFits(cfg, Next(cfg, a, act))
  {
    match act
    case Resume(k) => ResumeKeepsAccess(cfg, a, k);
    case ReadToken(t) => TaskStepKeepsAccess(cfg, a, act);
    case Serve(t, salt) => TaskStepKeepsAccess(cfg, a, act);
    case Lose(t) => TaskStepKeepsAccess(cfg, a, act);
    case Complete(t) => TaskStepKeepsAccess(cfg, a, act);
    case _ =>
  }

  /** A login stores an access token of its session. */
  lemma LoginFitsAccess(cfg: Config, s: Store, raw: string, code: string, salt: nat)
    requires VerifyCodeStep(cfg, s, raw, code, salt).1.LoggedIn?
    ensures var (s', r) := VerifyCodeStep(cfg, s, raw, code, salt);
      AccessFits(cfg, App(s', Some(r.access), Some(r.refresh), None, [], map[], r.jti, r.refresh))
  {
    var (s', r) := VerifyCodeStep(cfg, s, raw, code, salt);
    assert r.access == cfg.signAccess(r.jti, s.now);
  }

  /** Between resuming and building the retry the actor may be left again. The retry carries
      the access token of the moment it is built: unless an answer waits to be stored just
      then, that is an access token of the live session, or none when the store was cleared. */
  lemma {:induction false} RetryCarriesLiveAccess(cfg: Config, a: App, k: nat, between: seq<Action>)
    requires ValidConfig(cfg) && Inv(cfg, a) && AccessFits(cfg, a)
    requires k in a.calls && a.calls[k].Resumed?
    requires forall i :: 0 <= i < |between| ==> between[i] != BuildRetry(k)
    ensures var a' := Execute(cfg, a, between);
      && k in a'.calls && a'.calls[k].Resumed?
      && Next(cfg, a', BuildRetry(k)).calls[k] == Retrying(a'.access)
      && StillLive(a'.server, a'.jti)
      && (!AnswerPending(a') ==> AccessOf(cfg, a'.jti, a'.access))
    decreases between
  {
    if between == [] {
    } else {
      assert between[0] != BuildRetry(k);
      NextKeepsInv(cfg, a, between[0]);
      NextKeepsAccess(cfg, a, between[0]);
      RetryCarriesLiveAccess(cfg, Next(cfg, a, between[0]), k, between[1..]);
    }
  }

  // ------------------------------------------------------------- who stays signed in

  /** No refresh message is lost, and token and session last until they are served. */
  predicate CalmAction(cfg: Config, a: App, act: Action) {
    match act
    case Lose(t) => t < |a.tasks| ==> !a.tasks[t].AtServer? && !a.tasks[t].Answered?
    case Serve(t, _) =>
      t < |a.tasks| && a.tasks[t].AtServer? ==>
        && cfg.verifyRefresh(a.tasks[t].presented, a.server.now).Some?
        && (a.jti < |a.server.sessions| ==> a.server.sessions[a.jti].expiresAt >= a.server.now)
    case _ => true
  }

  predicate Calm(cfg: Config, a: App, actions: seq<Action>)
    decreases actions
  {
    actions == [] || (CalmAction(cfg, a, actions[0]) && Calm(cfg, Next(cfg, a, actions[0]), actions[1..]))
  }

  /** The refresh has failed, or its failure is on the way. */
  predicate Failing(task: Task) {
    task == Answered(None) || task == Ended(false)
  }

  /** The store holds a pair, and no refresh has failed. */
  predicate SignedIn(a: App) {
    a.access.Some? && a.stored.Some? && forall t :: 0 <= t < |a.tasks| ==> !Failing(a.tasks[t])
  }

  lemma CalmStepStaysSignedIn(cfg: Config, a: App, act: Action)
    requires ValidConfig(cfg) && Inv(cfg, a) && SignedIn(a) && CalmAction(cfg, a, act)
    ensures SignedIn(Next(cfg, a, act))
  {
    if act.Serve? && act.task < |a.tasks| && a.tasks[act.task].AtServer? {
      assert Running(a, act.task);
      ServeLiveToken(cfg, a.server, a.jti, a.token, act.salt);
    }
  }

  lemma UncalmStepFails(cfg: Config, a: App, act: Action)
    requires ValidConfig(cfg) && Inv(cfg, a) && !CalmAction(cfg, a, act)
    ensures exists t :: 0 <= t < |Next(cfg, a, act).tasks| && Failing(Next(cfg, a, act).tasks[t])
  {
    assert Running(a, act.task);
    if act.Serve? {
      ServeLiveToken(cfg, a.server, a.jti, a.token, act.salt);
    }
    assert Failing(Next(cfg, a, act).tasks[act.task]);
  }

  lemma {:induction false} RunStaysFailing(cfg: Config, a: App, actions: seq<Action>, t: nat)
    requires t < |a.tasks| && Failing(a.tasks[t])
    ensures t < |Execute(cfg, a, actions).tasks| && Failing(Execute(cfg, a, actions).tasks[t])
    decreases actions
  {
    if actions == [] {
    } else {
      RunStaysFailing(cfg, Next(cfg, a, actions[0]), actions[1..], t);
    }
  }

  /** In every interleaving the app stays signed in exactly when no refresh message is lost and
      token and session last until they are served. */
  lemma {:induction false} SignedInIffCalm(cfg: Config, a: App, actions: seq<Action>)
    requires ValidConfig(cfg) && Inv(cfg, a) && SignedIn(a)
    ensures SignedIn(Execute(cfg, a, actions)) <==> Calm(cfg, a, actions)
    decreases actions
  {
    if actions == [] {
    } else {
      NextKeepsInv(cfg, a, actions[0]);
      if CalmAction(cfg, a, actions[0]) {
        CalmStepStaysSignedIn(cfg, a, actions[0]);
        SignedInIffCalm(cfg, Next(cfg, a, actions[0]), actions[1..]);
      } else {
        UncalmStepFails(cfg, a, actions[0]);
        var a' := Next(cfg, a, actions[0]);
        var t: nat :| t < |a'.tasks| && Failing(a'.tasks[t]);
        RunStaysFailing(cfg, a', actions[1..], t);
      }
    }
  }

  /** A call that awaits a task goes on to its retry exactly when the task has stored a pair,
      and fails exactly when the task has failed; a task that failed has emptied the store. */
  lemma CallsFollowTheirTask(cfg: Config, a: App, call: nat, t: nat)
    requires call in a.calls && a.calls[call].Awaiting? && a.calls[call].task < |a.tasks|
    ensures var task, calls' := a.tasks[a.calls[call].task], Next(cfg, a, Resume(call)).calls;
      && call in calls'
      && (calls'[call] == Resumed <==> task == Ended(true))
      && (calls'[call] == Finished(false) <==> task == Ended(false))
      && (calls'[call] == a.calls[call] <==> !task.Ended?)
    ensures t < |a.tasks| && a.tasks[t].Answered? ==>
      var a', tokens := Next(cfg, a, Complete(t)), a.tasks[t].tokens;
      && (a'.tasks[t] == Ended(true) <==> tokens.Some?)
      && a'.access == (if tokens.Some? then Some(tokens.value.0) else None)
      && a'.stored == (if tokens.Some? then Some(tokens.value.1) else None)
  {
  }

  /** The actor: its task variable, the token store it talks to, and the refresh tasks. */
  class ApiClientActor {
    var access: Option<string>
    var stored: Option<string>
    var refreshTask: Option<nat>
    var tasks: seq<Task>
    var calls: map<nat, Call>

    ghost function Snapshot(a: App): App
      reads this
    {
      a.(access := access, stored := stored, refreshTask := refreshTask, tasks := tasks, calls := calls)
    }

    constructor (access: Option<string>, stored: Option<string>)
      ensures forall a: App :: Snapshot(a) == App(a.server, access, stored, None, [], map[], a.jti, a.token)
    {
      this.access, this.stored := access, stored;
      refreshTask, tasks, calls := None, [], map[];
    }

    method ClearAndNotify()
      modifies this`access, this`stored
      ensures access.None? && stored.None?
    {
      access, stored := None, None;
    }

    /** A call meets a 401 and enters performRefresh. */
    method OnUnauthorized(cfg: Config, ghost a: App, call: nat)
      modifies this`refreshTask, this`tasks, this`calls
      ensures Snapshot(a) == Next(cfg, old(Snapshot(a)), Unauthorized(call))
    {
      if call !in calls || !calls[call].Sent? { return; }
      if refreshTask.Some? {
        calls := calls[call := Awaiting(refreshTask.value, false)];
        return;
      }
      var t := |tasks|;
      tasks := tasks + [Starting];
      refreshTask := Some(t);
      calls := calls[call := Awaiting(t, true)];
    }

    /** The task body reads the stored refresh token and sends the request. */
    method OnReadToken(cfg: Config, ghost a: App, t: nat)
      modifies this`tasks, this`access, this`stored
      ensures Snapshot(a) == Next(cfg, old(Snapshot(a)), ReadToken(t))
    {
      if t >= |tasks| || !tasks[t].Starting? { return; }
      if stored.None? {
        ClearAndNotify();
        tasks := tasks[t := Ended(false)];
        return;
      }
      tasks := tasks[t := AtServer(stored.value)];
    }

    /** The answer arrives in the task body, which stores the pair or clears the store. */
    method OnComplete(cfg: Config, ghost a: App, t: nat)
      modifies this`tasks, this`access, this`stored
      ensures Snapshot(a) == Next(cfg, old(Snapshot(a)), Complete(t))
    {
      if t >= |tasks| || !tasks[t].Answered? { return; }
      var answer := tasks[t].tokens;
      if answer.Some? {
        access, stored := Some(answer.value.0), Some(answer.value.1);
      } else {
        ClearAndNotify();
      }
      tasks := tasks[t := Ended(answer.Some?)];
    }

    /** A call resumes after the task it awaited; the starter's `defer` clears the variable. */
    method OnResume(cfg: Config, ghost a: App, call: nat)
      modifies this`refreshTask, this`calls
      ensures Snapshot(a) == Next(cfg, old(Snapshot(a)), Resume(call))
    {
      if call !in calls || !calls[call].Awaiting? { return; }
      var awaited := calls[call];
      if awaited.task >= |tasks| || !tasks[awaited.task].Ended? { return; }
      if awaited.starter { refreshTask := None; }
      calls := calls[call := if tasks[awaited.task].ok then Resumed else Finished(false)];
    }

    /** After another await, for the access token, the retry is built. */
    method OnBuildRetry(cfg: Config, ghost a: App, call: nat)
      modifies this`calls
      ensures Snapshot(a) == Next(cfg, old(Snapshot(a)), BuildRetry(call))
    {
      if call in calls && calls[call].Resumed? {
        calls := calls[call := Retrying(access)];
      }
    }
  }
}
