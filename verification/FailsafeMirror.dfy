/** The poller over the mirror: administrators, the outbound worker, managers who edit leads
    in the CRM, webhooks, and the poller that syncs the leads it lists. Both the managers'
    edits and the worker's patches stamp a lead as updated. */
module FailsafeMirror {
  import opened Wrappers
  import opened CrmLens
  import opened OrderMirror
  import F = Failsafe

  datatype Joint = Joint(b: Backend, w: F.World)

  /** A step of the mirror, or one of the poller: the list call that succeeds, the next sync. */
  datatype Event = OnMirror(step: Step) | StartRun | SyncListed

  /** The lead that the step writes in the CRM. */
  function Stamped(cfg: Settings, b: Backend, step: Step): Option<int> {
    match step
    case EditLead(dealId, _) => Some(dealId)
    case Work =>
      if b.queue != [] && b.queue[0].dealId in b.leads && ToCustomFields(b.queue[0].input, cfg.ids) != []
      then Some(b.queue[0].dealId) else None
    case _ => None
  }

  function OnPoller(cfg: Settings, j: Joint, step: Step): F.World {
    match Stamped(cfg, j.b, step)
    case Some(lead) => F.Next(j.w, F.Edit(lead))
    case None => if step.Wait? then F.Next(j.w, F.Wait(step.ms)) else j.w
  }

  predicate Listed(w: F.World) {
    w.run.Some? && w.run.value != []
  }

  function Advance(cfg: Settings, j: Joint, e: Event): Joint {
    match e
    case OnMirror(step) => Joint(Next(cfg, j.b, step), OnPoller(cfg, j, step))
    case StartRun => j.(w := F.Next(j.w, F.Start(true)))
    case SyncListed =>
      if !Listed(j.w) then j
      else
        var (b', outcome) := SyncStep(cfg, j.b, j.w.run.value[0]);
        Joint(b', F.Next(j.w, F.SyncNext(outcome == Done)))
  }

  function Play(cfg: Settings, j: Joint, events: seq<Event>): Joint
    decreases events
  {
    if events == [] then j else Play(cfg, Advance(cfg, j, events[0]), events[1..])
  }

  // ------------------------------------------------------------- the last sync of a deal

  function OrderOf(orders: seq<Order>, dealId: int): (r: Option<Order>)
    ensures r.Some? <==> HasDeal(orders, dealId)
    ensures r.Some? ==> r.value.dealId == dealId
  {
    match FindOrder(orders, dealId)
    case Some(o) => Some(orders[o])
    case None => None
  }

  /** The deal that the event syncs with success, for a webhook or for the poller. */
  function SyncedDeal(cfg: Settings, j: Joint, e: Event): Option<int> {
    if e.SyncListed? && Listed(j.w) && SyncStep(cfg, j.b, j.w.run.value[0]).1 == Done then Some(j.w.run.value[0])
    else if e.OnMirror? && e.step.Sync? && SyncStep(cfg, j.b, e.step.dealId).1 == Done then Some(e.step.dealId)
    else None
  }

  function Recorded(cfg: Settings, j: Joint, e: Event, dealId: int, was: Option<Order>): Option<Order> {
    if SyncedDeal(cfg, j, e) == Some(dealId) then OrderOf(Advance(cfg, j, e).b.orders, dealId) else was
  }

  /** The deal's order as the last successful sync of the deal left it. */
  function LastSynced(cfg: Settings, j: Joint, events: seq<Event>, dealId: int, was: Option<Order>): Option<Order>
    decreases events
  {
    if events == [] then was
    else LastSynced(cfg, Advance(cfg, j, events[0]), events[1..], dealId, Recorded(cfg, j, events[0], dealId, was))
  }

  // -------------------------------------------------------------------- invariant

  /** Entry e is an edit of the lead that no successful sync of the poller has followed. */
  predicate Open(log: seq<F.Event>, e: nat, lead: int) {
    && e < |log| && log[e].Edited? && log[e].lead == lead
    && forall k :: e < k < |log| ==> log[k] != F.Attempted(lead, true)
  }

  /** A pending job will write something into the deal's lead. */
  predicate Writing(cfg: Settings, b: Backend, dealId: int) {
    exists i :: 0 <= i < |b.queue| && b.queue[i].dealId == dealId && ToCustomFields(b.queue[i].input, cfg.ids) != []
  }

  /** The lead will still change, or has changed in a way that the poller will notice. */
  ghost predicate Unsettled(cfg: Settings, j: Joint, dealId: int) {
    Writing(cfg, j.b, dealId) || exists e: nat :: Open(j.w.log, e, dealId)
  }

  /** A sync of this lead would leave the order alone. */
  ghost predicate InStep(cfg: Settings, order: Order, lead: Lead) {
    forall f :: AspectAgrees(cfg, order, lead, f)
  }

  /** Unless the deal is unsettled, its lead reads as it did at the last sync. */
  ghost predicate Traced(cfg: Settings, j: Joint, dealId: int, was: Option<Order>) {
    && UniqueDeals(j.b.orders)
    && (HasDeal(j.b.orders, dealId) <==> was.Some?)
    && (was.Some? ==> dealId in j.b.leads && (Unsettled(cfg, j, dealId) || InStep(cfg, was.value, j.b.leads[dealId])))
  }

  lemma OpenStays(log: seq<F.Event>, event: F.Event, e: nat, lead: int)
    requires Open(log, e, lead) && event != F.Attempted(lead, true)
    ensures Open(log + [event], e, lead)
  {
  }

  lemma StampOpens(log: seq<F.Event>, lead: int, at: int)
    ensures Open(log + [F.Edited(lead, at)], |log|, lead)
  {
  }

  /** What the poller's log gains leaves the deal unsettled, a successful attempt excepted. */
  lemma LogKeepsOpen(log: seq<F.Event>, event: F.Event, lead: int)
    requires event != F.Attempted(lead, true)
    ensures (exists e: nat :: Open(log, e, lead)) ==> exists e: nat :: Open(log + [event], e, lead)
  {
    if e: nat :| Open(log, e, lead) {
      OpenStays(log, event, e, lead);
    }
  }

  /** The worker takes a job that writes: the lead is stamped, and the poller will see it. */
  lemma WorkKeepsUnsettled(cfg: Settings, j: Joint, dealId: int)
    requires dealId in j.b.leads
    ensures var j' := Advance(cfg, j, OnMirror(Work));
      && dealId in j'.b.leads && (Unsettled(cfg, j, dealId) ==> Unsettled(cfg, j', dealId))
      && (j'.b.leads[dealId] == j.b.leads[dealId] || Unsettled(cfg, j', dealId))
  {
    var j' := Advance(cfg, j, OnMirror(Work));
    if Stamped(cfg, j.b, Work) == Some(dealId) {
      StampOpens(j.w.log, dealId, j.w.now);
    } else {
      if Stamped(cfg, j.b, Work).Some? {
        LogKeepsOpen(j.w.log, F.Edited(Stamped(cfg, j.b, Work).value, j.w.now), dealId);
      }
      if Writing(cfg, j.b, dealId) {
        var i :| 0 <= i < |j.b.queue| && j.b.queue[i].dealId == dealId && ToCustomFields(j.b.queue[i].input, cfg.ids) != [];
        assert j'.b.queue[i - 1] == j.b.queue[i];
      }
    }
  }

  lemma EditKeepsUnsettled(cfg: Settings, j: Joint, lead: int, row: Lead, dealId: int)
    requires dealId in j.b.leads
    ensures var j' := Advance(cfg, j, OnMirror(EditLead(lead, row)));
      && dealId in j'.b.leads && (Unsettled(cfg, j, dealId) ==> Unsettled(cfg, j', dealId))
      && (j'.b.leads[dealId] == j.b.leads[dealId] || Unsettled(cfg, j', dealId))
  {
    if lead == dealId {
      StampOpens(j.w.log, dealId, j.w.now);
    } else {
      LogKeepsOpen(j.w.log, F.Edited(lead, j.w.now), dealId);
    }
  }

  lemma UpdateKeepsWriting(cfg: Settings, b: Backend, o: nat, input: ProgressInput, actor: Option<nat>, dealId: int)
    ensures Writing(cfg, b, dealId) ==> Writing(cfg, UpdateProgressStep(b, o, input, actor).0, dealId)
  {
    if Writing(cfg, b, dealId) {
      var i :| 0 <= i < |b.queue| && b.queue[i].dealId == dealId && ToCustomFields(b.queue[i].input, cfg.ids) != [];
      assert UpdateProgressStep(b, o, input, actor).0.queue[i] == b.queue[i];
    }
  }

  /** An event other than a successful sync of the deal keeps it unsettled, and changes its
      lead only so that it becomes unsettled. */
  lemma EventKeepsUnsettled(cfg: Settings, j: Joint, e: Event, dealId: int)
    requires dealId in j.b.leads && SyncedDeal(cfg, j, e) != Some(dealId)
    ensures var j' := Advance(cfg, j, e);
      && dealId in j'.b.leads && (Unsettled(cfg, j, dealId) ==> Unsettled(cfg, j', dealId))
      && (j'.b.leads[dealId] == j.b.leads[dealId] || Unsettled(cfg, j', dealId))
  {
    match e
    case OnMirror(step) =>
      match step {
        case Update(o, input, actor) => UpdateKeepsWriting(cfg, j.b, o, input, actor, dealId);
        case Work => WorkKeepsUnsettled(cfg, j, dealId);
        case EditLead(lead, row) => EditKeepsUnsettled(cfg, j, lead, row, dealId);
        case _ =>
      }
    case StartRun =>
    case SyncListed =>
      if Listed(j.w) {
        var ok := SyncStep(cfg, j.b, j.w.run.value[0]).1 == Done;
        LogKeepsOpen(j.w.log, F.Attempted(j.w.run.value[0], ok), dealId);
      }
  }

  // ------------------------------------------------------------------- orders and syncs

  /** After a successful sync the deal has one order, and the order reads as the lead does. */
  lemma SyncPutsInStep(cfg: Settings, b: Backend, dealId: int)
    requires UniqueDeals(b.orders) && SyncStep(cfg, b, dealId).1 == Done
    ensures var b' := SyncStep(cfg, b, dealId).0;
      && UniqueDeals(b'.orders) && dealId in b'.leads
      && OrderOf(b'.orders, dealId).Some? && InStep(cfg, OrderOf(b'.orders, dealId).value, b'.leads[dealId])
  {
    var plan, b' := PlanSync(cfg, b, dealId).value, SyncStep(cfg, b, dealId).0;
    SyncGrows(b, dealId, plan);
    var o := FindOrder(b.orders, dealId).GetOr(|b.orders|);
    OnlyOrderOfDeal(b'.orders, dealId, o);
    forall f ensures AspectAgrees(cfg, b'.orders[o], b.leads[dealId], f) {
      var order := if o < |b.orders| then b.orders[o] else NewOrder(dealId, plan.client, plan.patch, b.now);
      PatchAgrees(cfg, order, plan.client, b.leads[dealId], dealId, b.now, f);
    }
  }

  /** Any other step of the mirror keeps the deal's order where it is, if there is one. */
  lemma OthersKeepDeal(cfg: Settings, b: Backend, step: Step, dealId: int)
    requires UniqueDeals(b.orders) && !(step == Sync(dealId) && SyncStep(cfg, b, dealId).1 == Done)
    ensures var orders' := Next(cfg, b, step).orders;
      UniqueDeals(orders') && (HasDeal(orders', dealId) <==> HasDeal(b.orders, dealId))
  {
    var orders' := Next(cfg, b, step).orders;
    OrdersGrow(cfg, b, step);
    DealsStay(b.orders, orders', dealId);
    if HasDeal(orders', dealId) {
      var o :| 0 <= o < |orders'| && orders'[o].dealId == dealId;
      if step.Sync? { OtherSyncLeaves(cfg, b, step.dealId, dealId, o); }
      assert b.orders[o].dealId == dealId;
    }
  }

  lemma EventKeepsTraced(cfg: Settings, j: Joint, e: Event, dealId: int, was: Option<Order>)
    requires Traced(cfg, j, dealId, was)
    ensures Traced(cfg, Advance(cfg, j, e), dealId, Recorded(cfg, j, e, dealId, was))
  {
    if SyncedDeal(cfg, j, e) == Some(dealId) {
      SyncPutsInStep(cfg, j.b, dealId);
    } else {
      if was.Some? { EventKeepsUnsettled(cfg, j, e, dealId); }
      match e
      case OnMirror(step) => OthersKeepDeal(cfg, j.b, step, dealId);
      case StartRun =>
      case SyncListed => if Listed(j.w) { OthersKeepDeal(cfg, j.b, Sync(j.w.run.value[0]), dealId); }
    }
  }

  /** Every run whatever keeps the trace of every deal. */
  lemma {:induction false} RunKeepsTraced(cfg: Settings, j: Joint, events: seq<Event>, dealId: int, was: Option<Order>)
    requires Traced(cfg, j, dealId, was)
    ensures Traced(cfg, Play(cfg, j, events), dealId, LastSynced(cfg, j, events, dealId, was))
    decreases events
  {
    if events == [] {
    } else {
      EventKeepsTraced(cfg, j, events[0], dealId, was);
      RunKeepsTraced(cfg, Advance(cfg, j, events[0]), events[1..], dealId, Recorded(cfg, j, events[0], dealId, was));
    }
  }

  lemma EventKeepsCovered(cfg: Settings, j: Joint, e: Event, cutoff: int)
    requires F.Covered(j.w, cutoff)
    ensures F.Covered(Advance(cfg, j, e).w, cutoff)
  {
    match e
    case OnMirror(step) =>
      if Stamped(cfg, j.b, step).Some? { F.EditKeepsCovered(j.w, Stamped(cfg, j.b, step).value, cutoff); }
    case StartRun => F.StartKeepsCovered(j.w, cutoff);
    case SyncListed =>
      if Listed(j.w) {
        F.SyncNextKeepsCovered(j.w, SyncStep(cfg, j.b, j.w.run.value[0]).1 == Done, cutoff);
      }
  }

  lemma {:induction false} PlayKeepsCovered(cfg: Settings, j: Joint, events: seq<Event>, cutoff: int)
    requires F.Covered(j.w, cutoff)
    ensures F.Covered(Play(cfg, j, events).w, cutoff)
    decreases events
  {
    if events == [] {
    } else {
      EventKeepsCovered(cfg, j, events[0], cutoff);
      PlayKeepsCovered(cfg, Advance(cfg, j, events[0]), events[1..], cutoff);
    }
  }

  // ------------------------------------------------------------------ main results

  /** The poller is idle and has done with the lead: each of its edits lies between the cutoff
      and the moment the last run took its list, each failed sync of it was followed by one
      that succeeded, and no job is left that writes into it. */
  ghost predicate AtRest(cfg: Settings, j: Joint, lead: int, cutoff: int) {
    var log := j.w.log;
    && j.w.run.None? && !Writing(cfg, j.b, lead)
    && (forall k :: 0 <= k < |log| && log[k] == F.Attempted(lead, false) ==> exists m :: k < m < |log| && log[m] == F.Attempted(lead, true))
    && (forall k :: 0 <= k < |log| && log[k].Edited? && log[k].lead == lead ==> k < j.w.started && log[k].at >= cutoff)
  }

  lemma RestIsSettled(cfg: Settings, j: Joint, lead: int, cutoff: int)
    requires F.Covered(j.w, cutoff) && AtRest(cfg, j, lead, cutoff)
    ensures !Unsettled(cfg, j, lead)
  {
    var log := j.w.log;
    forall e: nat ensures !Open(log, e, lead) {
      if e < |log| && log[e].Edited? && log[e].lead == lead {
        assert F.Followed(log, e, lead);
        var k :| e < k < |log| && log[k].Attempted? && log[k].lead == lead;
        assert log[k] == F.Attempted(lead, log[k].ok);
      }
    }
  }

  lemma RestReadsAsSynced(cfg: Settings, j0: Joint, events: seq<Event>, dealId: int)
    requires j0.b.orders == [] && F.ColdStart(j0.w)
    requires AtRest(cfg, Play(cfg, j0, events), dealId, j0.w.now - F.COLD_START_WINDOW)
    ensures var j, was := Play(cfg, j0, events), LastSynced(cfg, j0, events, dealId, None);
      Traced(cfg, j, dealId, was) && (was.Some? ==> InStep(cfg, was.value, j.b.leads[dealId]))
  {
    var cutoff := j0.w.now - F.COLD_START_WINDOW;
    RunKeepsTraced(cfg, j0, events, dealId, None);
    PlayKeepsCovered(cfg, j0, events, cutoff);
    RestIsSettled(cfg, Play(cfg, j0, events), dealId, cutoff);
  }

  /** In every run at all, however managers, administrators, worker, webhooks and poller
      interleave: once the poller has done with a lead, its order agrees with it in an aspect
      exactly when the aspect is what the deal's last sync wrote, a stage that the lead lacks
      excepted. */
  lemma RestAgreesIff(cfg: Settings, j0: Joint, events: seq<Event>, o: nat, f: Aspect)
    requires j0.b.orders == [] && F.ColdStart(j0.w)
    requires var j := Play(cfg, j0, events);
      o < |j.b.orders| && AtRest(cfg, j, j.b.orders[o].dealId, j0.w.now - F.COLD_START_WINDOW)
    ensures var j := Play(cfg, j0, events);
      var order := j.b.orders[o];
      var was := LastSynced(cfg, j0, events, order.dealId, None);
      && was.Some? && order.dealId in j.b.leads
      && (AspectAgrees(cfg, order, j.b.leads[order.dealId], f) <==>
            SameIn(order, was.value, f) || (f == StageOf && LeadStage(cfg, j.b.leads[order.dealId]).None?))
  {
    var j := Play(cfg, j0, events);
    var dealId := j.b.orders[o].dealId;
    RestReadsAsSynced(cfg, j0, events, dealId);
    assert HasDeal(j.b.orders, dealId);
    assert AspectAgrees(cfg, LastSynced(cfg, j0, events, dealId, None).value, j.b.leads[dealId], f);
  }

  // --------------------------------------------------------- when no entry loses its job

  /** An update of the deal's order has its own job, or repeats what is there. */
  predicate Noted(b: Backend, e: Event, dealId: int) {
    e.OnMirror? && e.step.Update? && e.step.orderId < |b.orders| && b.orders[e.step.orderId].dealId == dealId ==>
      || JobId(e.step.orderId, b.now) !in b.usedIds
      || SameEntry(UpdatedOrder(b.orders[e.step.orderId], e.step.input), b.orders[e.step.orderId])
  }

  predicate NotedPlay(cfg: Settings, j: Joint, events: seq<Event>, dealId: int)
    decreases events
  {
    events == [] || (Noted(j.b, events[0], dealId) && NotedPlay(cfg, Advance(cfg, j, events[0]), events[1..], dealId))
  }

  /** Unless the deal is unsettled, its order holds what the last sync wrote. */
  ghost predicate Unmoved(cfg: Settings, j: Joint, dealId: int, was: Option<Order>) {
    was.Some? && HasDeal(j.b.orders, dealId) ==>
      Unsettled(cfg, j, dealId) || SameEntry(OrderOf(j.b.orders, dealId).value, was.value)
  }

  /** A noted update leaves the entries as they are, or its job will write them. */
  lemma NotedUpdate(cfg: Settings, b: Backend, o: nat, input: ProgressInput, actor: Option<nat>, dealId: int)
    requires UniqueDeals(b.orders) && HasDeal(b.orders, dealId) && Noted(b, OnMirror(Update(o, input, actor)), dealId)
    ensures var b' := UpdateProgressStep(b, o, input, actor).0;
      && HasDeal(b'.orders, dealId)
      && (Writing(cfg, b', dealId) || SameEntry(OrderOf(b'.orders, dealId).value, OrderOf(b.orders, dealId).value))
  {
    var b', x := UpdateProgressStep(b, o, input, actor).0, FindOrder(b.orders, dealId).value;
    if o < |b.orders| {
      UpdateKeepsDeals(b, o, input, actor);
      OnlyOrderOfDeal(b'.orders, dealId, x);
      if o == x && JobId(o, b.now) !in b.usedIds && ToCustomFields(input, cfg.ids) != [] {
        assert b'.queue[|b.queue|] == Job(JobId(o, b.now), dealId, input);
      }
    }
  }

  /** A step that neither updates an order nor syncs this deal leaves its order alone. */
  lemma OthersKeepOrder(cfg: Settings, b: Backend, step: Step, dealId: int)
    requires UniqueDeals(b.orders) && HasDeal(b.orders, dealId) && !step.Update?
    requires !(step == Sync(dealId) && SyncStep(cfg, b, dealId).1 == Done)
    ensures OrderOf(Next(cfg, b, step).orders, dealId) == OrderOf(b.orders, dealId)
  {
    var x, orders' := FindOrder(b.orders, dealId).value, Next(cfg, b, step).orders;
    OrdersGrow(cfg, b, step);
    OnlyOrderOfDeal(orders', dealId, x);
    assert orders'[x] == b.orders[x];
  }

  lemma EventKeepsUnmoved(cfg: Settings, j: Joint, e: Event, dealId: int, was: Option<Order>)
    requires Traced(cfg, j, dealId, was) && Unmoved(cfg, j, dealId, was) && Noted(j.b, e, dealId)
    ensures Unmoved(cfg, Advance(cfg, j, e), dealId, Recorded(cfg, j, e, dealId, was))
  {
    if SyncedDeal(cfg, j, e) == Some(dealId) {
    } else if was.Some? {
      EventKeepsUnsettled(cfg, j, e, dealId);
      match e
      case OnMirror(step) =>
        if step.Update? {
          NotedUpdate(cfg, j.b, step.orderId, step.input, step.actor, dealId);
        } else {
          OthersKeepOrder(cfg, j.b, step, dealId);
        }
      case StartRun =>
      case SyncListed => if Listed(j.w) { OthersKeepOrder(cfg, j.b, Sync(j.w.run.value[0]), dealId); }
    }
  }

  lemma {:induction false} RunKeepsUnmoved(cfg: Settings, j: Joint, events: seq<Event>, dealId: int, was: Option<Order>)
    requires Traced(cfg, j, dealId, was) && Unmoved(cfg, j, dealId, was) && NotedPlay(cfg, j, events, dealId)
    ensures Unmoved(cfg, Play(cfg, j, events), dealId, LastSynced(cfg, j, events, dealId, was))
    decreases events
  {
    if events == [] {
    } else {
      EventKeepsTraced(cfg, j, events[0], dealId, was);
      EventKeepsUnmoved(cfg, j, events[0], dealId, was);
      RunKeepsUnmoved(cfg, Advance(cfg, j, events[0]), events[1..], dealId, Recorded(cfg, j, events[0], dealId, was));
    }
  }

  /** If no update of the deal's order shares a job id with an earlier one, unless it repeats
      what is there, the order agrees with its lead in stage, progress and comment whenever
      the poller has done with the lead, however managers, administrators, worker, webhooks
      and poller interleaved. */
  lemma EditedLeadsAgree(cfg: Settings, j0: Joint, events: seq<Event>, o: nat, f: Aspect)
    requires j0.b.orders == [] && F.ColdStart(j0.w)
    requires var j := Play(cfg, j0, events);
      && o < |j.b.orders| && AtRest(cfg, j, j.b.orders[o].dealId, j0.w.now - F.COLD_START_WINDOW)
      && NotedPlay(cfg, j0, events, j.b.orders[o].dealId)
    ensures var j := Play(cfg, j0, events);
      && j.b.orders[o].dealId in j.b.leads
      && AspectAgrees(cfg, j.b.orders[o], j.b.leads[j.b.orders[o].dealId], f)
  {
    var j, cutoff := Play(cfg, j0, events), j0.w.now - F.COLD_START_WINDOW;
    var dealId := j.b.orders[o].dealId;
    RestAgreesIff(cfg, j0, events, o, f);
    RestReadsAsSynced(cfg, j0, events, dealId);
    PlayKeepsCovered(cfg, j0, events, cutoff);
    RestIsSettled(cfg, j, dealId, cutoff);
    RunKeepsUnmoved(cfg, j0, events, dealId, None);
    OnlyOrderOfDeal(j.b.orders, dealId, o);
  }

  /** Of two updates in one millisecond, the first of which enters nothing, the worker writes
      neither into the lead. */
  lemma EmptyTakesTheId(cfg: Settings, j: Joint, input: ProgressInput)
    requires |j.b.orders| == 1 && j.b.orders[0].dealId == 7 && 7 in j.b.leads && j.b.queue == [] && j.b.usedIds == {}
    ensures var j1 := Advance(cfg, j, OnMirror(Update(0, ProgressInput(None, None, None), None)));
      var j3 := Advance(cfg, Advance(cfg, j1, OnMirror(Update(0, input, None))), OnMirror(Work));
      && |j3.b.orders| == 1 && j3.b.orders[0].dealId == 7 && j3.b.leads == j.b.leads && j3.b.queue == [] && j3.w == j.w
      && (input.comment.Some? ==> j3.b.orders[0].comment == input.comment)
  {
    var none := ProgressInput(None, None, None);
    var j1 := Advance(cfg, j, OnMirror(Update(0, none, None)));
    assert j1.b.queue == [Job(JobId(0, j.b.now), 7, none)] && j1.b.usedIds == {JobId(0, j.b.now)};
    var j2 := Advance(cfg, j1, OnMirror(Update(0, input, None)));
    assert j2.b.queue == j1.b.queue && j2.b.queue[1..] == [];
  }

  /** An input that fails: an update that enters nothing takes the job id of a comment entered
      in the same millisecond. The comment never reaches the lead, and nothing is left that
      would tell the poller. */
  lemma DroppedEntryStays(cfg: Settings, now: int, text: string)
    requires DistinctIds(cfg.ids)
    ensures var boot := Joint(DemoStart(cfg, now), F.World([], now, now - F.COLD_START_WINDOW, None, [], 0));
      var events := [OnMirror(Sync(7)), OnMirror(Update(0, ProgressInput(None, None, None), None)),
                     OnMirror(Update(0, ProgressInput(None, None, Some(text)), None)), OnMirror(Work)];
      var j := Play(cfg, boot, events);
      && F.ColdStart(boot.w) && boot.b.orders == [] && AtRest(cfg, j, 7, now - F.COLD_START_WINDOW)
      && |j.b.orders| == 1 && j.b.orders[0].dealId == 7 && 7 in j.b.leads
      && j.b.orders[0].comment == Some(text) && !AspectAgrees(cfg, j.b.orders[0], j.b.leads[7], CommentOf)
  {
    var none, some := ProgressInput(None, None, None), ProgressInput(None, None, Some(text));
    var j0 := Joint(DemoStart(cfg, now), F.World([], now, now - F.COLD_START_WINDOW, None, [], 0));
    DemoPull(cfg, now);
    DemoSync(cfg, j0.b);
    EmptyTakesTheId(cfg, Advance(cfg, j0, OnMirror(Sync(7))), some);
    PlayFour(cfg, j0, OnMirror(Sync(7)), OnMirror(Update(0, none, None)), OnMirror(Update(0, some, None)), OnMirror(Work));
  }

  lemma PlayFour(cfg: Settings, j: Joint, a: Event, b: Event, c: Event, d: Event)
    ensures Play(cfg, j, [a, b, c, d]) == Advance(cfg, Advance(cfg, Advance(cfg, Advance(cfg, j, a), b), c), d)
  {
    var j2 := Advance(cfg, Advance(cfg, j, a), b);
    assert [a, b, c, d][1..] == [b, c, d] && [b, c, d][1..] == [c, d] && [c, d][1..] == [d];
    assert Play(cfg, j, [a, b, c, d]) == Play(cfg, j2, [c, d]);
    assert Play(cfg, Advance(cfg, j2, c), [d]) == Advance(cfg, Advance(cfg, j2, c), d);
  }
}
