/** From an order's stage to the notification about it: updateProgress, the listener and the
    de-duplicating, deferring send run together. The listener asks for a notification at every
    change of stage, but a second one of the same kind within sixty seconds is skipped, at
    night all but the one about readiness wait for the morning, and a sync asks for none. */
module StageNotices {
  import opened Wrappers
  import opened CrmLens
  import opened OrderMirror
  import opened OrderHistory
  import opened QuietHours
  import N = Notifications

  /** The ids of users and orders as they stand in the de-duplication key. */
  datatype Ids = Ids(user: nat -> string, order: nat -> string)

  /** A request that became a job. */
  datatype Notice = Notice(r: Request, job: N.Job)

  /** `notices` holds what was enqueued, in that order. */
  datatype Desk = Desk(b: Backend, s: N.State, notices: seq<Notice>)

  function EventOf(r: Request): N.Event {
    match r
    case Ready(_) => N.OrderReady
    case StageChanged(_, _, _) => N.StageChanged
    case ProgressChanged(_, _, _) => N.ProgressChanged
  }

  function CallOf(ids: Ids, client: nat, r: Request, at: nat): N.Call {
    N.Call(N.Key(ids.user(client), EventOf(r), ids.order(r.orderId)), at)
  }

  function Send(ids: Ids, d: Desk, client: nat, r: Request, at: nat): Desk {
    var (s', sent) := N.SendStep(d.s, CallOf(ids, client, r, at));
    if sent then d.(s := s', notices := d.notices + [Notice(r, s'.jobs[|s'.jobs| - 1])]) else d.(s := s')
  }

  /** One step; what the listener asks for is sent at once. The clock starts at the epoch. */
  function Advance(cfg: Settings, ids: Ids, d: Desk, step: Step): Desk {
    var b' := Next(cfg, d.b, step);
    match step
    case Update(o, input, _) =>
      if o >= |d.b.orders| || d.b.now < 0 then d.(b := b') else Notify(ids, d, o, input).(b := b')
    case _ => d.(b := b')
  }

  function Notify(ids: Ids, d: Desk, o: nat, input: ProgressInput): Desk
    requires o < |d.b.orders| && d.b.now >= 0
  {
    var asked := Asked(d.b, o, input);
    if asked == [] then d else Send(ids, d, d.b.orders[o].clientUserId, asked[0], d.b.now)
  }

  /** What the listener asks for after an update. */
  function Asked(b: Backend, o: nat, input: ProgressInput): seq<Request>
    requires o < |b.orders|
  {
    var order := b.orders[o];
    Classify(o, order.stage, order.progress, input.stage.GetOr(order.stage),
             input.progress.GetOr(order.progress as real))
  }

  function Play(cfg: Settings, ids: Ids, d: Desk, steps: seq<Step>): Desk
    decreases steps
  {
    if steps == [] then d else Play(cfg, ids, Advance(cfg, ids, d, steps[0]), steps[1..])
  }

  // ------------------------------------------------------------- what the customer is told

  function Due(n: Notice): int {
    n.job.at + n.job.delay
  }

  /** The notice about the stage of o that falls due last; of several due at one instant, the
      one enqueued last. */
  function LastDue(notices: seq<Notice>, o: nat): (r: Option<Notice>)
    ensures r.Some? ==> r.value in notices && Names(r.value.r, o).Some?
    ensures forall n :: n in notices && Names(n.r, o).Some? ==> r.Some? && Due(n) <= Due(r.value)
  {
    if notices == [] then None
    else
      var last, before := notices[|notices| - 1], LastDue(notices[..|notices| - 1], o);
      if Names(last.r, o).None? || (before.Some? && Due(last) < Due(before.value)) then before else Some(last)
  }

  /** The stage the customer was told last once all that is enqueued has been delivered, or
      the one known at the start. */
  function Told(d: Desk, o: nat, start: Stage): Stage {
    match LastDue(d.notices, o)
    case Some(n) => Names(n.r, o).value
    case None => start
  }

  predicate InTime(d: Desk, o: nat, start: Stage) {
    o < |d.b.orders| && Told(d, o, start) == d.b.orders[o].stage
  }

  /** A notice about the stage of o waits for the morning. */
  predicate Deferred(d: Desk, o: nat) {
    exists n :: n in d.notices && Names(n.r, o).Some? && Due(n) > d.b.now
  }

  /** The notice tells what the listener asked for, and its job is due when `send` says. */
  predicate Honest(n: Notice, now: int) {
    && n.job.key.event == EventOf(n.r) && n.job.at <= now
    && n.job.delay == N.Delay(n.job.key.event, n.job.at)
    && (n.r.StageChanged? ==> n.r.newStage != ReadyForDelivery)
  }

  ghost predicate Sound(d: Desk) {
    && d.b.now >= 0 && N.Sound(d.s, d.b.now)
    && forall n :: n in d.notices ==> Honest(n, d.b.now)
  }

  /** Whatever is deferred during a night falls due at one instant, the next morning's. */
  lemma OneMorning(t: int, now: int)
    requires IsQuietHour(t) && t <= now < t + DeferUntilMorning(t)
    ensures IsQuietHour(now) && now + DeferUntilMorning(now) == t + DeferUntilMorning(t)
  {
    LeastDelayOutOfQuiet(t);
    LeastDelayOutOfQuiet(now);
  }

  /** A notice not yet due is due when one deferred now would be, and tells of no readiness. */
  lemma PendingIsDeferred(d: Desk, n: Notice)
    requires Honest(n, d.b.now) && Due(n) > d.b.now
    ensures IsQuietHour(d.b.now) && Due(n) == d.b.now + DeferUntilMorning(d.b.now) && !n.r.Ready?
  {
    OneMorning(n.job.at, d.b.now);
  }

  lemma LastDueAppend(notices: seq<Notice>, n: Notice, o: nat)
    ensures var before := LastDue(notices, o);
      LastDue(notices + [n], o) ==
        if Names(n.r, o).None? || (before.Some? && Due(n) < Due(before.value)) then before else Some(n)
  {
    assert (notices + [n])[..|notices|] == notices;
  }

  // ------------------------------------------------------------------------ one step

  predicate Recent(ids: Ids, d: Desk, client: nat, r: Request) {
    d.b.now >= 0 && N.RecentlyEnqueued(d.s.jobs, CallOf(ids, client, r, d.b.now))
  }

  lemma SendIsSound(ids: Ids, d: Desk, client: nat, r: Request)
    requires Sound(d) && (r.StageChanged? ==> r.newStage != ReadyForDelivery)
    ensures var d', n := Send(ids, d, client, r, d.b.now), NoticeOf(ids, client, r, d.b.now);
      && Sound(d') && d'.b == d.b
      && d'.notices == if Recent(ids, d, client, r) then d.notices else d.notices + [n]
  {
    N.SendKeepsSound(d.s, CallOf(ids, client, r, d.b.now), d.b.now);
    var d', n := Send(ids, d, client, r, d.b.now), NoticeOf(ids, client, r, d.b.now);
    assert Honest(n, d.b.now);
    assert forall m :: m in d.notices + [n] ==> m in d.notices || m == n;
  }

  /** The notice of a request sent at this instant. */
  function NoticeOf(ids: Ids, client: nat, r: Request, at: nat): Notice {
    var key := CallOf(ids, client, r, at).key;
    Notice(r, N.Job(key, at, N.Delay(key.event, at)))
  }

  lemma NotifyIsSound(ids: Ids, d: Desk, x: nat, input: ProgressInput)
    requires Sound(d) && x < |d.b.orders|
    ensures var d', asked, client := Notify(ids, d, x, input), Asked(d.b, x, input), d.b.orders[x].clientUserId;
      && Sound(d') && d'.b == d.b
      && d'.notices == if asked == [] || Recent(ids, d, client, asked[0]) then d.notices
                       else d.notices + [NoticeOf(ids, client, asked[0], d.b.now)]
  {
    var asked := Asked(d.b, x, input);
    if asked != [] {
      SendIsSound(ids, d, d.b.orders[x].clientUserId, asked[0]);
    }
  }

  lemma UpdateWrites(cfg: Settings, b: Backend, x: nat, input: ProgressInput, actor: Option<nat>)
    requires x < |b.orders|
    ensures var b' := Next(cfg, b, Update(x, input, actor));
      b'.orders == b.orders[x := UpdatedOrder(b.orders[x], input)] && b'.now == b.now
  {
  }

  lemma UpdateDesk(cfg: Settings, ids: Ids, d: Desk, x: nat, input: ProgressInput, actor: Option<nat>)
    requires Sound(d) && x < |d.b.orders|
    ensures var d' := Advance(cfg, ids, d, Update(x, input, actor));
      var asked, client := Asked(d.b, x, input), d.b.orders[x].clientUserId;
      && Sound(d') && d'.b.orders == d.b.orders[x := UpdatedOrder(d.b.orders[x], input)] && d'.b.now == d.b.now
      && d'.notices == if asked == [] || Recent(ids, d, client, asked[0]) then d.notices
                       else d.notices + [NoticeOf(ids, client, asked[0], d.b.now)]
  {
    NotifyIsSound(ids, d, x, input);
    UpdateWrites(cfg, d.b, x, input, actor);
  }

  lemma StepKeepsSound(cfg: Settings, ids: Ids, d: Desk, step: Step)
    requires Sound(d)
    ensures Sound(Advance(cfg, ids, d, step))
  {
    match step
    case Update(o, input, actor) =>
      if o < |d.b.orders| { UpdateDesk(cfg, ids, d, o, input, actor); }
    case _ =>
  }

  /** The step moves order o to another stage. */
  predicate Moves(cfg: Settings, b: Backend, step: Step, o: nat) {
    var orders' := Next(cfg, b, step).orders;
    o < |b.orders| && o < |orders'| && orders'[o].stage != b.orders[o].stage
  }

  /** What the listener asks for when order o moves to this stage. */
  function ChangeRequest(b: Backend, o: nat, stage: Stage): Request
    requires o < |b.orders|
  {
    if stage == ReadyForDelivery then Ready(o) else StageChanged(o, stage, b.orders[o].stage)
  }

  /** The step that moves order o tells its customer. A notice enqueued does so unless it
      tells of readiness and another one of the order waits for the morning; a notice skipped
      or not asked for does no harm if what was told last is the stage come back to. */
  predicate Tells(cfg: Settings, ids: Ids, d: Desk, step: Step, o: nat, start: Stage) {
    var orders' := Next(cfg, d.b, step).orders;
    && o < |d.b.orders| && o < |orders'|
    && if step.Update? && !Recent(ids, d, d.b.orders[o].clientUserId, ChangeRequest(d.b, o, orders'[o].stage))
       then orders'[o].stage != ReadyForDelivery || !Deferred(d, o)
       else Told(d, o, start) == orders'[o].stage
  }

  /** A notice enqueued now becomes the last one due, unless it overtakes a deferred one. */
  lemma NewNoticeIsLast(ids: Ids, d: Desk, o: nat, client: nat, r: Request)
    requires Sound(d) && Names(r, o).Some? && (r.StageChanged? ==> r.newStage != ReadyForDelivery)
    ensures var last := LastDue(d.notices + [NoticeOf(ids, client, r, d.b.now)], o);
      && last.Some? && Names(last.value.r, o).Some?
      && (Names(last.value.r, o) == Names(r, o) <==> !(r.Ready? && Deferred(d, o)))
  {
    var n, before := NoticeOf(ids, client, r, d.b.now), LastDue(d.notices, o);
    LastDueAppend(d.notices, n, o);
    if IsQuietHour(d.b.now) { LeastDelayOutOfQuiet(d.b.now); }
    if before.Some? && Due(before.value) > d.b.now {
      PendingIsDeferred(d, before.value);
    }
  }

  /** An update moves the order exactly when it names another stage, and the listener then
      asks for the notice of the change. */
  lemma UpdateMoves(cfg: Settings, b: Backend, x: nat, input: ProgressInput, actor: Option<nat>, o: nat)
    requires x < |b.orders| && o < |b.orders|
    ensures Moves(cfg, b, Update(x, input, actor), o) <==> x == o && input.stage.GetOr(b.orders[o].stage) != b.orders[o].stage
    ensures var asked := Asked(b, x, input);
      if Moves(cfg, b, Update(x, input, actor), o) then asked == [ChangeRequest(b, o, input.stage.value)]
      else asked == [] || Names(asked[0], o).None?
    ensures Asked(b, x, input) != [] && Asked(b, x, input)[0].StageChanged? ==> Asked(b, x, input)[0].newStage != ReadyForDelivery
  {
    UpdateWrites(cfg, b, x, input, actor);
  }

  /** The update that moves the order, after which the notice of the change may be there. */
  lemma MoveTellsIff(ids: Ids, d: Desk, d': Desk, o: nat, stage: Stage, client: nat, start: Stage)
    requires Sound(d) && o < |d.b.orders| && o < |d'.b.orders| && d'.b.orders[o].stage == stage
    requires var r := ChangeRequest(d.b, o, stage);
      d'.notices == if Recent(ids, d, client, r) then d.notices else d.notices + [NoticeOf(ids, client, r, d.b.now)]
    ensures InTime(d', o, start) <==>
      if Recent(ids, d, client, ChangeRequest(d.b, o, stage)) then Told(d, o, start) == stage
      else stage != ReadyForDelivery || !Deferred(d, o)
  {
    NewNoticeIsLast(ids, d, o, client, ChangeRequest(d.b, o, stage));
  }

  /** An update that does not move the order, whatever notice it brings. */
  lemma OtherTellsIff(d: Desk, d': Desk, o: nat, start: Stage)
    requires o < |d.b.orders| && o < |d'.b.orders| && d'.b.orders[o].stage == d.b.orders[o].stage
    requires d'.notices == d.notices || exists n :: d'.notices == d.notices + [n] && Names(n.r, o).None?
    ensures InTime(d', o, start) <==> InTime(d, o, start)
  {
    if d'.notices != d.notices {
      var n :| d'.notices == d.notices + [n] && Names(n.r, o).None?;
      LastDueAppend(d.notices, n, o);
    }
  }

  lemma UpdateTellsIff(cfg: Settings, ids: Ids, d: Desk, x: nat, input: ProgressInput, actor: Option<nat>, o: nat, start: Stage)
    requires Sound(d) && o < |d.b.orders|
    ensures var step := Update(x, input, actor);
      InTime(Advance(cfg, ids, d, step), o, start) <==>
        if Moves(cfg, d.b, step, o) then Tells(cfg, ids, d, step, o, start) else InTime(d, o, start)
  {
    var d' := Advance(cfg, ids, d, Update(x, input, actor));
    if x < |d.b.orders| {
      UpdateDesk(cfg, ids, d, x, input, actor);
      UpdateMoves(cfg, d.b, x, input, actor, o);
      if Moves(cfg, d.b, Update(x, input, actor), o) {
        MoveTellsIff(ids, d, d', o, input.stage.value, d.b.orders[o].clientUserId, start);
      } else {
        OtherTellsIff(d, d', o, start);
      }
    }
  }

  lemma OrdersStay(cfg: Settings, b: Backend, step: Step)
    ensures |b.orders| <= |Next(cfg, b, step).orders|
  {
  }

  // ------------------------------------------------------------------ main results

  /** After any step the customer will have been told the current stage last exactly when the
      step moved the order and told of it, or did not move it and that was so before. */
  lemma StepTellsIff(cfg: Settings, ids: Ids, d: Desk, step: Step, o: nat, start: Stage)
    requires Sound(d) && o < |d.b.orders|
    ensures InTime(Advance(cfg, ids, d, step), o, start) <==>
      if Moves(cfg, d.b, step, o) then Tells(cfg, ids, d, step, o, start) else InTime(d, o, start)
  {
    match step
    case Update(x, input, actor) => UpdateTellsIff(cfg, ids, d, x, input, actor, o, start);
    case _ => OrdersStay(cfg, d.b, step);
  }

  /** The last step of the run that moved the order told of it; without one, `before`. */
  predicate LastMoveTold(cfg: Settings, ids: Ids, d: Desk, steps: seq<Step>, o: nat, start: Stage, before: bool)
    decreases steps
  {
    if steps == [] then before
    else LastMoveTold(cfg, ids, Advance(cfg, ids, d, steps[0]), steps[1..], o, start,
                      if Moves(cfg, d.b, steps[0], o) then Tells(cfg, ids, d, steps[0], o, start) else before)
  }

  /** Over every run of updates, worker steps, syncs and CRM edits: the customer will have been
      told the current stage last exactly when the last step that moved the order told of it. */
  lemma {:induction false} ToldIffLastMoveTold(cfg: Settings, ids: Ids, d: Desk, steps: seq<Step>, o: nat, start: Stage)
    requires Sound(d) && o < |d.b.orders|
    ensures InTime(Play(cfg, ids, d, steps), o, start) <==> LastMoveTold(cfg, ids, d, steps, o, start, InTime(d, o, start))
    decreases steps
  {
    if steps == [] {
    } else {
      StepKeepsSound(cfg, ids, d, steps[0]);
      StepTellsIff(cfg, ids, d, steps[0], o, start);
      OrdersStay(cfg, d.b, steps[0]);
      ToldIffLastMoveTold(cfg, ids, Advance(cfg, ids, d, steps[0]), steps[1..], o, start);
    }
  }

  // -------------------------------------------------------------- three inputs that fail

  function Enter(o: nat, stage: Stage): Step {
    Update(o, ProgressInput(Some(stage), None, None), None)
  }

  lemma FirstNotice(ids: Ids, b: Backend, client: nat, r: Request)
    requires b.now >= 0
    ensures var d := Desk(b, N.EMPTY, []);
      && Sound(d) && !Recent(ids, d, client, r)
      && Send(ids, d, client, r, b.now).s.jobs == [NoticeOf(ids, client, r, b.now).job]
  {
  }

  /** The first change of stage is enqueued. */
  lemma FirstChange(cfg: Settings, ids: Ids, b: Backend, o: nat)
    requires o < |b.orders| && b.orders[o].stage == Detailing && b.now >= 0
    ensures var d, r := Advance(cfg, ids, Desk(b, N.EMPTY, []), Enter(o, Production)), StageChanged(o, Production, Detailing);
      && Sound(d) && d.notices == [NoticeOf(ids, b.orders[o].clientUserId, r, b.now)] && d.b.now == b.now
      && d.s.jobs == [d.notices[0].job] && o < |d.b.orders| && d.b.orders[o].stage == Production
      && d.b.orders[o].clientUserId == b.orders[o].clientUserId
  {
    var input, r := ProgressInput(Some(Production), None, None), StageChanged(o, Production, Detailing);
    assert Asked(b, o, input) == [r];
    FirstNotice(ids, b, b.orders[o].clientUserId, r);
    UpdateDesk(cfg, ids, Desk(b, N.EMPTY, []), o, input, None);
  }

  /** The second change of stage: skipped in one minute, or sent and, if of readiness, at once. */
  lemma NextChange(cfg: Settings, ids: Ids, d: Desk, o: nat, stage: Stage, wait: nat)
    requires Sound(d) && o < |d.b.orders| && d.b.orders[o].stage == Production && stage != Production
    ensures var r, waited := ChangeRequest(d.b, o, stage), Advance(cfg, ids, d, Wait(wait));
      var d', client := Advance(cfg, ids, waited, Enter(o, stage)), d.b.orders[o].clientUserId;
      && waited.b.now == d.b.now + wait && waited.b.now >= 0
      && o < |d'.b.orders| && d'.b.orders[o].stage == stage && Sound(d')
      && d'.notices == if Recent(ids, waited, client, r) then d.notices
                       else d.notices + [NoticeOf(ids, client, r, waited.b.now)]
  {
    var waited, input := Advance(cfg, ids, d, Wait(wait)), ProgressInput(Some(stage), None, None);
    StepKeepsSound(cfg, ids, d, Wait(wait));
    assert Asked(waited.b, o, input) == [ChangeRequest(d.b, o, stage)];
    UpdateDesk(cfg, ids, waited, o, input, None);
  }

  /** Two changes of stage less than a minute apart: the customer is told the first only. */
  lemma SecondChangeNotTold(cfg: Settings, ids: Ids, b: Backend, o: nat, wait: nat)
    requires o < |b.orders| && b.orders[o].stage == Detailing && b.now >= 0 && wait < 60_000
    ensures var first := Advance(cfg, ids, Desk(b, N.EMPTY, []), Enter(o, Production));
      var second := Advance(cfg, ids, Advance(cfg, ids, first, Wait(wait)), Enter(o, TransferToWarehouse));
      && |first.notices| == 1 && second.notices == first.notices
      && o < |second.b.orders| && second.b.orders[o].stage == TransferToWarehouse
      && Told(second, o, Detailing) == Production
  {
    FirstChange(cfg, ids, b, o);
    var first := Advance(cfg, ids, Desk(b, N.EMPTY, []), Enter(o, Production));
    NextChange(cfg, ids, first, o, TransferToWarehouse, wait);
    assert N.RecentlyEnqueued(first.s.jobs, CallOf(ids, b.orders[o].clientUserId, ChangeRequest(first.b, o, TransferToWarehouse), b.now + wait)) by {
      assert first.s.jobs[0].at == b.now;
    }
  }

  lemma OvertakenIsLast(first: Notice, second: Notice, o: nat)
    requires Names(first.r, o).Some? && Names(second.r, o).Some? && Due(second) < Due(first)
    ensures LastDue([first, second], o) == Some(first)
  {
    LastDueAppend([], first, o);
    LastDueAppend([first], second, o);
    assert [] + [first] == [first] && [first] + [second] == [first, second];
  }

  /** A notice of readiness is of another kind than the one enqueued. */
  lemma ReadyIsNew(ids: Ids, d: Desk, client: nat, o: nat)
    requires d.notices != [] && d.s.jobs == [d.notices[0].job] && d.notices[0].job.key.event == N.StageChanged
    ensures !Recent(ids, d, client, Ready(o))
  {
  }

  /** With a deferred change of stage enqueued, readiness is told first. */
  lemma OvertakenAfterWait(cfg: Settings, ids: Ids, d: Desk, o: nat, client: nat, wait: nat, at: nat)
    requires Sound(d) && o < |d.b.orders| && d.b.orders[o].stage == Production && d.b.orders[o].clientUserId == client
    requires d.notices == [NoticeOf(ids, client, StageChanged(o, Production, Detailing), at)] && d.s.jobs == [d.notices[0].job]
    requires d.b.now == at && IsQuietHour(at) && wait < DeferUntilMorning(at)
    ensures var second := Advance(cfg, ids, Advance(cfg, ids, d, Wait(wait)), Enter(o, ReadyForDelivery));
      && |second.notices| == 2 && Due(second.notices[1]) == at + wait < Due(second.notices[0])
      && o < |second.b.orders| && second.b.orders[o].stage == ReadyForDelivery
      && Told(second, o, Detailing) == Production
  {
    NextChange(cfg, ids, d, o, ReadyForDelivery, wait);
    ReadyIsNew(ids, Advance(cfg, ids, d, Wait(wait)), client, o);
    OvertakenIsLast(d.notices[0], NoticeOf(ids, client, Ready(o), at + wait), o);
  }

  /** At night a change of stage waits for the morning, and readiness, told at once, overtakes
      it: what the customer is told last is the stage before. */
  lemma ReadinessOvertakes(cfg: Settings, ids: Ids, b: Backend, o: nat, wait: nat)
    requires o < |b.orders| && b.orders[o].stage == Detailing && b.now >= 0
    requires IsQuietHour(b.now) && wait < DeferUntilMorning(b.now)
    ensures var first := Advance(cfg, ids, Desk(b, N.EMPTY, []), Enter(o, Production));
      var second := Advance(cfg, ids, Advance(cfg, ids, first, Wait(wait)), Enter(o, ReadyForDelivery));
      && |second.notices| == 2 && Due(second.notices[1]) == b.now + wait < Due(second.notices[0])
      && o < |second.b.orders| && second.b.orders[o].stage == ReadyForDelivery
      && Told(second, o, Detailing) == Production
  {
    FirstChange(cfg, ids, b, o);
    OvertakenAfterWait(cfg, ids, Advance(cfg, ids, Desk(b, N.EMPTY, []), Enter(o, Production)), o,
                       b.orders[o].clientUserId, wait, b.now);
  }

  /** The lead of the demonstration, in this stage. */
  lemma DemoStage(cfg: Settings, lead: Lead, stage: Stage, now: int)
    requires DistinctIds(cfg.ids)
    requires lead == DemoStart(cfg, now).leads[7].(fields := Some([Field(cfg.ids.stage, [Text(StageName(stage))])]))
    ensures Pull(cfg.js, cfg.ids, cfg.statusToStage, lead).Ok?
    ensures LeadStage(cfg, lead).Some? && ParseStage(LeadStage(cfg, lead).value) == Some(stage)
  {
    ReadSingle(Field(cfg.ids.stage, [Text(StageName(stage))]), cfg.ids.stage);
    ParseStageName(stage);
  }

  /** A manager moves the lead in the CRM and the sync follows: the order has its new stage,
      and the customer is told nothing. */
  lemma SyncIsSilent(cfg: Settings, ids: Ids, now: int)
    requires DistinctIds(cfg.ids)
    ensures var d := Advance(cfg, ids, Desk(DemoStart(cfg, now), N.EMPTY, []), Sync(7));
      var lead := DemoStart(cfg, now).leads[7].(fields := Some([Field(cfg.ids.stage, [Text(StageName(Production))])]));
      var moved := Advance(cfg, ids, Advance(cfg, ids, d, EditLead(7, lead)), Sync(7));
      && |d.b.orders| == 1 && d.b.orders[0].stage == Detailing
      && |moved.b.orders| == 1 && moved.b.orders[0].stage == Production
      && moved.notices == [] && Told(moved, 0, Detailing) == Detailing
  {
    var b0 := DemoStart(cfg, now);
    var lead := b0.leads[7].(fields := Some([Field(cfg.ids.stage, [Text(StageName(Production))])]));
    DemoStage(cfg, b0.leads[7], Detailing, now);
    DemoStage(cfg, lead, Production, now);
    DemoSync(cfg, b0);
    var b1 := Next(cfg, b0, Sync(7));
    SyncAgrees(cfg, b0, 7, 0, StageOf);
    var b2 := Next(cfg, b1, EditLead(7, lead));
    DemoSync(cfg, b2);
    SyncReads(cfg, b2, 7, 0);
  }
}
