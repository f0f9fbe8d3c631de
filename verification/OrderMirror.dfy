/** Orders and their mirror in the CRM: updateProgress (orders.service.ts) with its history
    rows, outbound jobs and events, the outbound worker, the progress listener, and
    syncDealById (amocrm-sync.service.ts). A row's id is its position. */
module OrderMirror {
  import opened Wrappers
  import opened CrmLens
  import Phone
  import Identity

  datatype Order = Order(dealId: int, clientUserId: nat, stage: Stage, progress: int, comment: Option<string>,
                         version: nat, productName: Option<string>, prepayment: Option<real>, services: Json,
                         contractNumber: Option<string>, syncedAt: int)

  datatype HistoryRow = HistoryRow(orderId: nat, stage: Stage, progress: real, comment: Option<string>, changedBy: Option<nat>)

  /** `${orderId}_${Date.now()}`: order ids contain no underscore, so the pair is the string. */
  datatype JobId = JobId(orderId: nat, ms: int)

  datatype Job = Job(id: JobId, dealId: int, input: ProgressInput)

  /** What the progress listener asks the notification service to send. */
  datatype Request =
    | Ready(orderId: nat)
    | StageChanged(orderId: nat, newStage: Stage, oldStage: Stage)
    | ProgressChanged(orderId: nat, newPercent: real, oldPercent: int)

  datatype Contact = Contact(id: int, name: Option<string>, phone: Option<string>)

  datatype Settings = Settings(js: Js, ids: FieldIds, statusToStage: map<int, string>)

  datatype Backend = Backend(orders: seq<Order>, history: seq<HistoryRow>, queue: seq<Job>, usedIds: set<JobId>,
                             requests: seq<Request>, leads: map<int, Lead>, contacts: map<int, Contact>,
                             identity: Identity.Store, now: int)

  datatype Outcome = Done | OrderNotFound | LeadNotFound | BadStage | NoContact | ContactNotFound | NoPhone | UpsertFailed

  const NO_SERVICES := Json("[]")

  // ------------------------------------------------------------- the listener

  /** OrderProgressListener.handle: at most one request per update. */
  function Classify(orderId: nat, oldStage: Stage, oldPercent: int, newStage: Stage, newPercent: real): seq<Request> {
    var stageChanged := oldStage != newStage;
    var delta := if newPercent >= oldPercent as real then newPercent - oldPercent as real else oldPercent as real - newPercent;
    if newStage == ReadyForDelivery && stageChanged then [Ready(orderId)]
    else if stageChanged then [StageChanged(orderId, newStage, oldStage)]
    else if delta >= 10.0 then [ProgressChanged(orderId, newPercent, oldPercent)]
    else []
  }

  // ----------------------------------------------------------- updateProgress

  function UpdatedOrder(order: Order, input: ProgressInput): Order {
    order.(version := order.version + 1,
           stage := input.stage.GetOr(order.stage),
           progress := if input.progress.Some? then ClampPercent(input.progress.value) else order.progress,
           comment := if input.comment.Some? then input.comment else order.comment)
  }

  /** The queue keeps the ids it has seen and ignores a job whose id is one of them. */
  function Enqueue(b: Backend, job: Job): Backend {
    if job.id in b.usedIds then b else b.(queue := b.queue + [job], usedIds := b.usedIds + {job.id})
  }

  function UpdateProgressStep(b: Backend, orderId: nat, input: ProgressInput, actor: Option<nat>): (Backend, Outcome) {
    if orderId >= |b.orders| then (b, OrderNotFound)
    else
      var order := b.orders[orderId];
      var stage := input.stage.GetOr(order.stage);
      var percent := input.progress.GetOr(order.progress as real);
      var b1 := b.(orders := b.orders[orderId := UpdatedOrder(order, input)],
                   history := b.history + [HistoryRow(orderId, stage, percent, input.comment, actor)]);
      var b2 := Enqueue(b1, Job(JobId(orderId, b.now), order.dealId, input));
      (b2.(requests := b2.requests + Classify(orderId, order.stage, order.progress, stage, percent)), Done)
  }

  // ------------------------------------------------------- the outbound worker

  /** What one job makes of the lead it is for. */
  function ProcessLead(cfg: Settings, lead: Lead, input: ProgressInput, now: int): Lead {
    if ToCustomFields(input, cfg.ids) == [] then lead else Push(lead, input, cfg.ids, now)
  }

  /** The worker takes the oldest job; a job for an unknown lead fails and is dropped. */
  function WorkStep(cfg: Settings, b: Backend): Backend {
    if b.queue == [] then b
    else
      var job := b.queue[0];
      var leads' := if job.dealId in b.leads
                    then b.leads[job.dealId := ProcessLead(cfg, b.leads[job.dealId], job.input, b.now)] else b.leads;
      b.(queue := b.queue[1..], leads := leads')
  }

  // -------------------------------------------------------------- syncDealById

  function FindOrder(orders: seq<Order>, dealId: int): (r: Option<nat>)
    ensures r.Some? ==> r.value < |orders| && orders[r.value].dealId == dealId
    ensures r.None? ==> forall i :: 0 <= i < |orders| ==> orders[i].dealId != dealId
  {
    if orders == [] then None
    else if orders[|orders| - 1].dealId == dealId then Some(|orders| - 1)
    else FindOrder(orders[..|orders| - 1], dealId)
  }

  function SyncedOrder(order: Order, patch: OrderPatch, now: int): Order {
    order.(productName := patch.productName,
           stage := patch.stage.GetOr(order.stage),
           progress := patch.progress.GetOr(0),
           comment := patch.comment,
           prepayment := patch.prepayment,
           services := patch.services.GetOr(NO_SERVICES),
           syncedAt := now,
           version := order.version + 1)
  }

  function NewOrder(dealId: int, client: nat, patch: OrderPatch, now: int): Order {
    Order(dealId, client, patch.stage.GetOr(PreparationForProduction), patch.progress.GetOr(0), patch.comment, 0,
          patch.productName, patch.prepayment, patch.services.GetOr(NO_SERVICES), None, now)
  }

  /** What a sync that meets no error goes on with. */
  datatype SyncPlan = SyncPlan(patch: OrderPatch, client: nat, identity: Identity.Store)

  function PlanSync(cfg: Settings, b: Backend, dealId: int): (r: Result<SyncPlan, Outcome>)
    ensures r.Err? ==> r.error != Done
    ensures r.Ok? ==> dealId in b.leads && Pull(cfg.js, cfg.ids, cfg.statusToStage, b.leads[dealId]) == Ok(r.value.patch)
  {
    if dealId !in b.leads then Err(LeadNotFound)
    else match Pull(cfg.js, cfg.ids, cfg.statusToStage, b.leads[dealId])
      case Err(_) => Err(BadStage)
      case Ok(patch) =>
        if patch.contactId.None? || patch.contactId == Some(0) then Err(NoContact)
        else if patch.contactId.value !in b.contacts then Err(ContactNotFound)
        else
          var contact := b.contacts[patch.contactId.value];
          if contact.phone.None? || contact.phone == Some("") then Err(NoPhone)
          else
            var (identity', reply) := Identity.CrmUpsertStep(b.identity, contact.phone.value, contact.id, contact.name);
            var client := Identity.FindUser(identity'.users, Phone.StoredPhone(contact.phone.value));
            if reply.Failed? || client.None? then Err(UpsertFailed)
            else Ok(SyncPlan(patch, client.value, identity'))
  }

  function ApplySync(b: Backend, dealId: int, plan: SyncPlan): Backend {
    var b1 := b.(identity := plan.identity);
    match FindOrder(b.orders, dealId)
    case Some(o) => b1.(orders := b.orders[o := SyncedOrder(b.orders[o], plan.patch, b.now)])
    case None => b1.(orders := b.orders + [NewOrder(dealId, plan.client, plan.patch, b.now)])
  }

  function SyncStep(cfg: Settings, b: Backend, dealId: int): (Backend, Outcome) {
    match PlanSync(cfg, b, dealId)
    case Err(outcome) => (b, outcome)
    case Ok(plan) => (ApplySync(b, dealId, plan), Done)
  }

  // -------------------------------------------------------------------- runs

  datatype Step =
    | Update(orderId: nat, input: ProgressInput, actor: Option<nat>)
    | Work
    | Sync(dealId: int)
    | EditLead(dealId: int, lead: Lead)
    | Wait(ms: nat)

  /** One step; in the CRM a manager may write anything into a lead. */
  function Next(cfg: Settings, b: Backend, step: Step): Backend {
    match step
    case Update(o, input, actor) => UpdateProgressStep(b, o, input, actor).0
    case Work => WorkStep(cfg, b)
    case Sync(dealId) => SyncStep(cfg, b, dealId).0
    case EditLead(dealId, lead) => b.(leads := b.leads[dealId := lead])
    case Wait(ms) => b.(now := b.now + ms)
  }

  function Execute(cfg: Settings, b: Backend, steps: seq<Step>): Backend
    decreases steps
  {
    if steps == [] then b else Execute(cfg, Next(cfg, b, steps[0]), steps[1..])
  }

  // ------------------------------------------------------ the mirror invariant

  /** The lead as it will be once the pending jobs for its deal are processed. */
  function Drained(cfg: Settings, lead: Lead, dealId: int, queue: seq<Job>): Lead {
    if queue == [] then lead
    else
      var last := queue[|queue| - 1];
      var before := Drained(cfg, lead, dealId, queue[..|queue| - 1]);
      if last.dealId == dealId then ProcessLead(cfg, before, last.input, lead.updatedAt) else before
  }

  /** What an administrator enters and a sync may overwrite. */
  datatype Aspect = StageOf | ProgressOf | CommentOf

  predicate SameIn(a: Order, b: Order, f: Aspect) {
    match f
    case StageOf => a.stage == b.stage
    case ProgressOf => a.progress == b.progress
    case CommentOf => a.comment == b.comment
  }

  predicate Enters(input: ProgressInput, f: Aspect) {
    match f
    case StageOf => input.stage.Some?
    case ProgressOf => input.progress.Some?
    case CommentOf => input.comment.Some?
  }

  function LeadStage(cfg: Settings, lead: Lead): Option<string> {
    StageText(cfg.js, cfg.ids, cfg.statusToStage, lead)
  }

  function LeadPercent(cfg: Settings, lead: Lead): Option<int> {
    var progress := ReadNumber(cfg.js, Fields(lead), cfg.ids.progress);
    if progress.Some? then Some(ClampPercent(progress.value)) else None
  }

  /** A sync of this lead would leave this aspect of the order alone. */
  predicate AspectAgrees(cfg: Settings, order: Order, lead: Lead, f: Aspect) {
    match f
    case StageOf => LeadStage(cfg, lead).Some? ==> ParseStage(LeadStage(cfg, lead).value) == Some(order.stage)
    case ProgressOf => LeadPercent(cfg, lead).GetOr(0) == order.progress
    case CommentOf => ReadString(cfg.js, Fields(lead), cfg.ids.comment) == order.comment
  }

  /** The order's aspect agrees with its lead as it will be once the pending jobs are done. */
  predicate AgreesIn(cfg: Settings, b: Backend, o: nat, f: Aspect) {
    && o < |b.orders|
    && b.orders[o].dealId in b.leads
    && AspectAgrees(cfg, b.orders[o], Drained(cfg, b.leads[b.orders[o].dealId], b.orders[o].dealId, b.queue), f)
  }

  predicate Agrees(cfg: Settings, b: Backend, o: nat) {
    AgreesIn(cfg, b, o, StageOf) && AgreesIn(cfg, b, o, ProgressOf) && AgreesIn(cfg, b, o, CommentOf)
  }

  // ------------------------------------------------------------- what the CRM wrote

  /** The two leads read alike in this aspect. */
  predicate SameReading(cfg: Settings, a: Lead, b: Lead, f: Aspect) {
    match f
    case StageOf =>
      && StatusStage(cfg.statusToStage, a) == StatusStage(cfg.statusToStage, b)
      && ReadValue(Fields(a), cfg.ids.stage) == ReadValue(Fields(b), cfg.ids.stage)
    case ProgressOf => ReadValue(Fields(a), cfg.ids.progress) == ReadValue(Fields(b), cfg.ids.progress)
    case CommentOf => ReadValue(Fields(a), cfg.ids.comment) == ReadValue(Fields(b), cfg.ids.comment)
  }

  /** An aspect of a deal. */
  datatype Mark = Mark(dealId: int, f: Aspect)

  /** What the CRM has written since the last entry or sync of it: an edit of the lead marks
      what it changes, an entry unmarks what is entered, a sync that succeeds unmarks its deal. */
  function Marked(cfg: Settings, b: Backend, marks: set<Mark>, step: Step): set<Mark> {
    match step
    case Update(o, input, _) =>
      if o >= |b.orders| then marks
      else set m | m in marks && !(m.dealId == b.orders[o].dealId && Enters(input, m.f))
    case Sync(dealId) =>
      if SyncStep(cfg, b, dealId).1 == Done then set m | m in marks && m.dealId != dealId else marks
    case EditLead(dealId, lead) =>
      marks + set f | f in {StageOf, ProgressOf, CommentOf}
                      && !(dealId in b.leads && SameReading(cfg, b.leads[dealId], lead, f)) :: Mark(dealId, f)
    case _ => marks
  }

  /** The marks after a run that began without any. */
  function CrmWrote(cfg: Settings, b: Backend, marks: set<Mark>, steps: seq<Step>): set<Mark>
    decreases steps
  {
    if steps == [] then marks else CrmWrote(cfg, Next(cfg, b, steps[0]), Marked(cfg, b, marks, steps[0]), steps[1..])
  }

  predicate UniqueDeals(orders: seq<Order>) {
    forall i, j :: 0 <= i < j < |orders| ==> orders[i].dealId != orders[j].dealId
  }

  predicate HasDeal(orders: seq<Order>, dealId: int) {
    exists o :: 0 <= o < |orders| && orders[o].dealId == dealId
  }

  /** The deal's order and its lead agree in all that the CRM has not written itself. */
  ghost predicate Mirrored(cfg: Settings, b: Backend, marks: set<Mark>, dealId: int) {
    && UniqueDeals(b.orders)
    && (HasDeal(b.orders, dealId) ==> dealId in b.leads)
    && (forall o, f :: 0 <= o < |b.orders| && b.orders[o].dealId == dealId && Mark(dealId, f) !in marks ==> AgreesIn(cfg, b, o, f))
  }

  predicate Pending(b: Backend, dealId: int) {
    exists i :: 0 <= i < |b.queue| && b.queue[i].dealId == dealId
  }

  /** The stage that the lead's pipeline status dictates, if any, is the one entered. */
  predicate StatusAllows(cfg: Settings, lead: Lead, stage: Stage) {
    var status := StatusStage(cfg.statusToStage, lead);
    status.None? || ParseStage(status.value) == Some(stage)
  }

  /** The steps under which the mirror of a deal holds, whatever is done to other deals: no
      two updates of its order in one millisecond, no stage against the pipeline status, no
      sync over a pending job. */
  predicate Orderly(cfg: Settings, b: Backend, step: Step, dealId: int) {
    match step
    case Update(o, input, _) =>
      o < |b.orders| && b.orders[o].dealId == dealId ==>
        && JobId(o, b.now) !in b.usedIds
        && (input.stage.Some? && dealId in b.leads ==> StatusAllows(cfg, b.leads[dealId], input.stage.value))
    case Sync(synced) => synced == dealId ==> !Pending(b, dealId)
    case _ => true
  }

  predicate OrderlyRun(cfg: Settings, b: Backend, steps: seq<Step>, dealId: int)
    decreases steps
  {
    steps == [] || (Orderly(cfg, b, steps[0], dealId) && OrderlyRun(cfg, Next(cfg, b, steps[0]), steps[1..], dealId))
  }

  /** What the pending jobs of a deal will have written, field by field. */
  function PendingInput(queue: seq<Job>, dealId: int): ProgressInput {
    if queue == [] then ProgressInput(None, None, None)
    else
      var last := queue[|queue| - 1];
      var before := PendingInput(queue[..|queue| - 1], dealId);
      if last.dealId == dealId then Override(before, last.input) else before
  }

  lemma ProcessReads(cfg: Settings, lead: Lead, input: ProgressInput, now: int, id: int)
    requires DistinctIds(cfg.ids)
    ensures var written := Written(input, cfg.ids, id);
      ReadValue(Fields(ProcessLead(cfg, lead, input, now)), id)
      == if written.Some? then written else ReadValue(Fields(lead), id)
  {
    ReadAfterPush(lead, input, cfg.ids, now, id);
  }

  /** A drained lead reads as the pending jobs write, and otherwise as it is. */
  lemma {:induction false} DrainedReads(cfg: Settings, lead: Lead, dealId: int, queue: seq<Job>, id: int)
    requires DistinctIds(cfg.ids)
    ensures var written := Written(PendingInput(queue, dealId), cfg.ids, id);
      ReadValue(Fields(Drained(cfg, lead, dealId, queue)), id)
      == if written.Some? then written else ReadValue(Fields(lead), id)
    ensures Drained(cfg, lead, dealId, queue).statusId == lead.statusId
  {
    if queue == [] {
    } else {
      var front, last := queue[..|queue| - 1], queue[|queue| - 1];
      DrainedReads(cfg, lead, dealId, front, id);
      ProcessReads(cfg, Drained(cfg, lead, dealId, front), last.input, lead.updatedAt, id);
    }
  }

  lemma {:induction false} DrainedWithoutJobs(cfg: Settings, lead: Lead, dealId: int, queue: seq<Job>)
    requires forall i :: 0 <= i < |queue| ==> queue[i].dealId != dealId
    ensures Drained(cfg, lead, dealId, queue) == lead
  {
    if queue == [] {
    } else {
      DrainedWithoutJobs(cfg, lead, dealId, queue[..|queue| - 1]);
    }
  }

  predicate SameButTime(a: Lead, b: Lead) {
    a.(updatedAt := 0) == b.(updatedAt := 0)
  }

  /** Processing the oldest job first or last in the account makes no difference. */
  lemma {:induction false} DrainHead(cfg: Settings, lead: Lead, lead': Lead, dealId: int, queue: seq<Job>, now: int)
    requires queue != []
    requires SameButTime(lead', if queue[0].dealId == dealId then ProcessLead(cfg, lead, queue[0].input, now) else lead)
    ensures SameButTime(Drained(cfg, lead', dealId, queue[1..]), Drained(cfg, lead, dealId, queue))
  {
    var n := |queue| - 1;
    if n == 0 {
      assert queue[..0] == [];
    } else {
      assert queue[1..][..n - 1] == queue[..n][1..];
      DrainHead(cfg, lead, lead', dealId, queue[..n], now);
    }
  }

  lemma PushAgrees(cfg: Settings, order: Order, lead: Lead, input: ProgressInput, now: int, f: Aspect)
    requires DistinctIds(cfg.ids)
    requires !Enters(input, f) ==> AspectAgrees(cfg, order, lead, f)
    requires input.stage.Some? ==> StatusAllows(cfg, lead, input.stage.value)
    ensures AspectAgrees(cfg, UpdatedOrder(order, input), ProcessLead(cfg, lead, input, now), f)
  {
    match f
    case StageOf =>
      StageAfterPush(cfg.js, cfg.ids, cfg.statusToStage, lead, input, now);
      if input.stage.Some? { ParseStageName(input.stage.value); }
    case ProgressOf => NumbersAfterPush(cfg.js, cfg.ids, lead, input, now);
    case CommentOf => TextsAfterPush(cfg.js, cfg.ids, lead, input, now);
  }

  lemma UpdateKeepsAgreement(cfg: Settings, b: Backend, o: nat, input: ProgressInput, actor: Option<nat>, f: Aspect)
    requires DistinctIds(cfg.ids) && o < |b.orders| && b.orders[o].dealId in b.leads
    requires Enters(input, f) || AgreesIn(cfg, b, o, f)
    requires Orderly(cfg, b, Update(o, input, actor), b.orders[o].dealId)
    ensures AgreesIn(cfg, UpdateProgressStep(b, o, input, actor).0, o, f)
  {
    var b' := UpdateProgressStep(b, o, input, actor).0;
    var dealId := b.orders[o].dealId;
    var lead := b.leads[dealId];
    var before := Drained(cfg, lead, dealId, b.queue);
    assert b'.queue[..|b.queue|] == b.queue;
    assert Drained(cfg, lead, dealId, b'.queue) == ProcessLead(cfg, before, input, lead.updatedAt);
    DrainedReads(cfg, lead, dealId, b.queue, 0);
    PushAgrees(cfg, b.orders[o], before, input, lead.updatedAt, f);
  }

  lemma UpdateKeepsOthers(cfg: Settings, b: Backend, o: nat, input: ProgressInput, actor: Option<nat>, other: nat, f: Aspect)
    requires o < |b.orders| && other < |b.orders| && other != o && UniqueDeals(b.orders) && AgreesIn(cfg, b, other, f)
    ensures AgreesIn(cfg, UpdateProgressStep(b, o, input, actor).0, other, f)
  {
    var b' := UpdateProgressStep(b, o, input, actor).0;
    assert b.orders[other].dealId != b.orders[o].dealId;
    if b'.queue != b.queue {
      assert b'.queue[..|b.queue|] == b.queue;
    }
  }

  lemma WorkKeepsAgreement(cfg: Settings, b: Backend, o: nat, f: Aspect)
    requires o < |b.orders| && AgreesIn(cfg, b, o, f)
    ensures AgreesIn(cfg, WorkStep(cfg, b), o, f)
  {
    if b.queue == [] {
    } else {
      var dealId := b.orders[o].dealId;
      DrainHead(cfg, b.leads[dealId], WorkStep(cfg, b).leads[dealId], dealId, b.queue, b.now);
    }
  }

  /** An order written from a lead's patch agrees with that lead. */
  lemma PatchAgrees(cfg: Settings, order: Order, client: nat, lead: Lead, dealId: int, now: int, f: Aspect)
    requires Pull(cfg.js, cfg.ids, cfg.statusToStage, lead).Ok?
    ensures var patch := Pull(cfg.js, cfg.ids, cfg.statusToStage, lead).value;
      && AspectAgrees(cfg, SyncedOrder(order, patch, now), lead, f)
      && AspectAgrees(cfg, NewOrder(dealId, client, patch, now), lead, f)
  {
  }

  /** After a sync that succeeds, the deal's order agrees with the lead in every aspect. */
  lemma SyncAgrees(cfg: Settings, b: Backend, dealId: int, o: nat, f: Aspect)
    requires UniqueDeals(b.orders) && !Pending(b, dealId) && SyncStep(cfg, b, dealId).1 == Done
    requires o < |SyncStep(cfg, b, dealId).0.orders| && SyncStep(cfg, b, dealId).0.orders[o].dealId == dealId
    ensures AgreesIn(cfg, SyncStep(cfg, b, dealId).0, o, f)
  {
    var plan, found := PlanSync(cfg, b, dealId).value, FindOrder(b.orders, dealId);
    DrainedWithoutJobs(cfg, b.leads[dealId], dealId, b.queue);
    if o < |b.orders| {
      OnlyOrderOfDeal(b.orders, dealId, o);
      PatchAgrees(cfg, b.orders[o], 0, b.leads[dealId], dealId, b.now, f);
    } else {
      PatchAgrees(cfg, NewOrder(dealId, 0, plan.patch, b.now), plan.client, b.leads[dealId], dealId, b.now, f);
    }
  }

  lemma EditKeepsAgreement(cfg: Settings, b: Backend, dealId: int, lead: Lead, o: nat, f: Aspect)
    requires DistinctIds(cfg.ids) && AgreesIn(cfg, b, o, f)
    requires b.orders[o].dealId == dealId ==> SameReading(cfg, b.leads[dealId], lead, f)
    ensures AgreesIn(cfg, b.(leads := b.leads[dealId := lead]), o, f)
  {
    if b.orders[o].dealId == dealId {
      DrainedReads(cfg, b.leads[dealId], dealId, b.queue, AspectId(cfg, f));
      DrainedReads(cfg, lead, dealId, b.queue, AspectId(cfg, f));
    }
  }

  function AspectId(cfg: Settings, f: Aspect): int {
    match f
    case StageOf => cfg.ids.stage
    case ProgressOf => cfg.ids.progress
    case CommentOf => cfg.ids.comment
  }

  lemma UpdateStepAgrees(cfg: Settings, b: Backend, marks: set<Mark>, x: nat, input: ProgressInput, actor: Option<nat>,
                         o: nat, f: Aspect)
    requires DistinctIds(cfg.ids) && o < |b.orders| && Mirrored(cfg, b, marks, b.orders[o].dealId)
    requires Orderly(cfg, b, Update(x, input, actor), b.orders[o].dealId)
    requires Mark(b.orders[o].dealId, f) !in Marked(cfg, b, marks, Update(x, input, actor))
    ensures AgreesIn(cfg, UpdateProgressStep(b, x, input, actor).0, o, f)
  {
    if x >= |b.orders| {
      assert AgreesIn(cfg, b, o, f);
    } else if o == x {
      assert Enters(input, f) || Mark(b.orders[o].dealId, f) !in marks;
      UpdateKeepsAgreement(cfg, b, o, input, actor, f);
    } else {
      assert b.orders[o].dealId != b.orders[x].dealId;
      UpdateKeepsOthers(cfg, b, x, input, actor, o, f);
    }
  }

  lemma SyncStepAgrees(cfg: Settings, b: Backend, marks: set<Mark>, synced: int, o: nat, f: Aspect, dealId: int)
    requires Mirrored(cfg, b, marks, dealId) && Orderly(cfg, b, Sync(synced), dealId)
    requires o < |SyncStep(cfg, b, synced).0.orders| && SyncStep(cfg, b, synced).0.orders[o].dealId == dealId
    requires Mark(dealId, f) !in Marked(cfg, b, marks, Sync(synced))
    ensures AgreesIn(cfg, SyncStep(cfg, b, synced).0, o, f)
  {
    if SyncStep(cfg, b, synced).1 == Done && synced == dealId {
      SyncAgrees(cfg, b, dealId, o, f);
    } else {
      OtherSyncLeaves(cfg, b, synced, dealId, o);
      assert AgreesIn(cfg, b, o, f);
    }
  }

  lemma OtherSyncLeaves(cfg: Settings, b: Backend, synced: int, dealId: int, o: nat)
    requires SyncStep(cfg, b, synced).1 != Done || synced != dealId
    requires o < |SyncStep(cfg, b, synced).0.orders| && SyncStep(cfg, b, synced).0.orders[o].dealId == dealId
    ensures o < |b.orders| && SyncStep(cfg, b, synced).0.orders[o] == b.orders[o]
  {
  }

  lemma StepKeepsAgreement(cfg: Settings, b: Backend, marks: set<Mark>, step: Step, o: nat, f: Aspect, dealId: int)
    requires DistinctIds(cfg.ids) && Mirrored(cfg, b, marks, dealId) && Orderly(cfg, b, step, dealId)
    requires o < |Next(cfg, b, step).orders| && Next(cfg, b, step).orders[o].dealId == dealId
    requires Mark(dealId, f) !in Marked(cfg, b, marks, step)
    ensures AgreesIn(cfg, Next(cfg, b, step), o, f)
  {
    match step
    case Update(x, input, actor) => UpdateStepAgrees(cfg, b, marks, x, input, actor, o, f);
    case Work => WorkKeepsAgreement(cfg, b, o, f);
    case Sync(synced) => SyncStepAgrees(cfg, b, marks, synced, o, f, dealId);
    case EditLead(edited, lead) => EditKeepsAgreement(cfg, b, edited, lead, o, f);
    case Wait(ms) => assert AgreesIn(cfg, b, o, f);
  }

  lemma StepKeepsMirrored(cfg: Settings, b: Backend, marks: set<Mark>, step: Step, dealId: int)
    requires DistinctIds(cfg.ids) && Mirrored(cfg, b, marks, dealId) && Orderly(cfg, b, step, dealId)
    ensures Mirrored(cfg, Next(cfg, b, step), Marked(cfg, b, marks, step), dealId)
  {
    var b', marks' := Next(cfg, b, step), Marked(cfg, b, marks, step);
    forall o, f | 0 <= o < |b'.orders| && b'.orders[o].dealId == dealId && Mark(dealId, f) !in marks'
      ensures AgreesIn(cfg, b', o, f)
    {
      StepKeepsAgreement(cfg, b, marks, step, o, f, dealId);
    }
    OrdersGrow(cfg, b, step);
    OrderKeepsLead(cfg, b, step, dealId);
  }

  lemma OrderKeepsLead(cfg: Settings, b: Backend, step: Step, dealId: int)
    requires HasDeal(b.orders, dealId) ==> dealId in b.leads
    ensures HasDeal(Next(cfg, b, step).orders, dealId) ==> dealId in Next(cfg, b, step).leads
  {
    var orders' := Next(cfg, b, step).orders;
    if HasDeal(orders', dealId) {
      var o :| 0 <= o < |orders'| && orders'[o].dealId == dealId;
      if step.Sync? && !(SyncStep(cfg, b, step.dealId).1 == Done && step.dealId == dealId) {
        OtherSyncLeaves(cfg, b, step.dealId, dealId, o);
      }
    }
  }

  predicate SameDeals(orders: seq<Order>, orders': seq<Order>) {
    |orders| <= |orders'| && forall o :: 0 <= o < |orders| ==> orders'[o].dealId == orders[o].dealId
  }

  lemma OrdersGrow(cfg: Settings, b: Backend, step: Step)
    requires UniqueDeals(b.orders)
    ensures UniqueDeals(Next(cfg, b, step).orders) && SameDeals(b.orders, Next(cfg, b, step).orders)
  {
    match step
    case Sync(dealId) =>
      if PlanSync(cfg, b, dealId).Ok? {
        SyncGrows(b, dealId, PlanSync(cfg, b, dealId).value);
      }
    case _ =>
  }

  lemma SyncGrows(b: Backend, dealId: int, plan: SyncPlan)
    requires UniqueDeals(b.orders)
    ensures UniqueDeals(ApplySync(b, dealId, plan).orders) && SameDeals(b.orders, ApplySync(b, dealId, plan).orders)
  {
  }

  lemma DealsStay(orders: seq<Order>, orders': seq<Order>, dealId: int)
    ensures SameDeals(orders, orders') && HasDeal(orders, dealId) ==> HasDeal(orders', dealId)
  {
    if SameDeals(orders, orders') && HasDeal(orders, dealId) {
      var o :| 0 <= o < |orders| && orders[o].dealId == dealId;
      assert orders'[o].dealId == dealId;
    }
  }

  lemma {:induction false} RunKeepsMirrored(cfg: Settings, b: Backend, marks: set<Mark>, steps: seq<Step>, dealId: int)
    requires DistinctIds(cfg.ids) && Mirrored(cfg, b, marks, dealId) && OrderlyRun(cfg, b, steps, dealId)
    ensures Mirrored(cfg, Execute(cfg, b, steps), CrmWrote(cfg, b, marks, steps), dealId)
    decreases steps
  {
    if steps == [] {
    } else {
      StepKeepsMirrored(cfg, b, marks, steps[0], dealId);
      RunKeepsMirrored(cfg, Next(cfg, b, steps[0]), Marked(cfg, b, marks, steps[0]), steps[1..], dealId);
    }
  }

  // ------------------------------------------------------------------ main results

  /** What a sync makes of a lead, read aspect by aspect. */
  lemma SyncReads(cfg: Settings, b: Backend, dealId: int, o: nat)
    requires UniqueDeals(b.orders) && o < |b.orders| && b.orders[o].dealId == dealId
    requires SyncStep(cfg, b, dealId).1 == Done
    ensures var b' := SyncStep(cfg, b, dealId).0;
      && dealId in b.leads && o < |b'.orders|
      && var lead := b.leads[dealId];
         && b'.orders[o].comment == ReadString(cfg.js, Fields(lead), cfg.ids.comment)
         && b'.orders[o].progress == LeadPercent(cfg, lead).GetOr(0)
         && (LeadStage(cfg, lead).None? ==> b'.orders[o].stage == b.orders[o].stage)
         && (LeadStage(cfg, lead).Some? ==> ParseStage(LeadStage(cfg, lead).value) == Some(b'.orders[o].stage))
  {
    OnlyOrderOfDeal(b.orders, dealId, o);
  }

  /** With no job pending for the deal, a sync leaves alone what agrees with the lead. */
  lemma SyncKeepsAgreed(cfg: Settings, b: Backend, dealId: int, o: nat, f: Aspect)
    requires UniqueDeals(b.orders) && !Pending(b, dealId) && o < |b.orders|
    requires b.orders[o].dealId == dealId ==> AgreesIn(cfg, b, o, f)
    ensures o < |SyncStep(cfg, b, dealId).0.orders| && SameIn(b.orders[o], SyncStep(cfg, b, dealId).0.orders[o], f)
  {
    if b.orders[o].dealId == dealId && SyncStep(cfg, b, dealId).1 == Done {
      DrainedWithoutJobs(cfg, b.leads[dealId], dealId, b.queue);
      SyncReads(cfg, b, dealId, o);
    }
  }

  /** Nothing an administrator entered is lost but to the CRM itself: after any run of updates,
      worker steps, syncs and CRM edits from an empty backend that is orderly for the deal,
      a sync of the deal with no pending job changes a stage, progress or comment only if the
      CRM has written it since it was entered or synced. */
  lemma {:induction false} EntriesSurviveSync(cfg: Settings, b0: Backend, steps: seq<Step>, dealId: int, o: nat, f: Aspect)
    requires DistinctIds(cfg.ids) && b0.orders == [] && OrderlyRun(cfg, b0, steps, dealId)
    requires var b := Execute(cfg, b0, steps); !Pending(b, dealId) && o < |b.orders|
    ensures var b := Execute(cfg, b0, steps);
      && o < |SyncStep(cfg, b, dealId).0.orders|
      && (!SameIn(b.orders[o], SyncStep(cfg, b, dealId).0.orders[o], f) ==>
            b.orders[o].dealId == dealId && Mark(dealId, f) in CrmWrote(cfg, b0, {}, steps))
  {
    RunKeepsMirrored(cfg, b0, {}, steps, dealId);
    var b := Execute(cfg, b0, steps);
    if b.orders[o].dealId != dealId || Mark(dealId, f) !in CrmWrote(cfg, b0, {}, steps) {
      SyncKeepsAgreed(cfg, b, dealId, o, f);
    } else {
      SyncGrowsAnyway(cfg, b, dealId);
    }
  }

  lemma SyncGrowsAnyway(cfg: Settings, b: Backend, dealId: int)
    ensures |b.orders| <= |SyncStep(cfg, b, dealId).0.orders|
  {
  }

  /** A run in which nobody edits a lead in the CRM marks nothing. */
  lemma {:induction false} NoEditNoMark(cfg: Settings, b: Backend, steps: seq<Step>)
    requires forall i :: 0 <= i < |steps| ==> !steps[i].EditLead?
    ensures CrmWrote(cfg, b, {}, steps) == {}
    decreases steps
  {
    if steps == [] {
    } else {
      assert Marked(cfg, b, {}, steps[0]) == {};
      NoEditNoMark(cfg, Next(cfg, b, steps[0]), steps[1..]);
    }
  }

  /** A second update of an order in one millisecond has its job dropped. The mirror still
      agrees exactly when that update repeats what is already there. */
  lemma DroppedJobAgreesIff(cfg: Settings, b: Backend, o: nat, input: ProgressInput, actor: Option<nat>)
    requires o < |b.orders| && Agrees(cfg, b, o) && JobId(o, b.now) in b.usedIds
    ensures var order := b.orders[o];
      var order' := UpdatedOrder(order, input);
      var drained := Drained(cfg, b.leads[order.dealId], order.dealId, b.queue);
      Agrees(cfg, UpdateProgressStep(b, o, input, actor).0, o) <==>
        order'.comment == order.comment && order'.progress == order.progress
        && (LeadStage(cfg, drained).None? || order'.stage == order.stage)
  {
    var order := b.orders[o];
    var b' := UpdateProgressStep(b, o, input, actor).0;
    assert b'.queue == b.queue && b'.leads == b.leads && b'.orders[o] == UpdatedOrder(order, input);
  }

  /** A sync that overtakes the job of an entry undoes it. Progress and comment fall back to
      what they were, and the stage too if the lead has one; so the entry survives exactly
      when it repeats the old values, or enters no more than a stage that the lead lacks. */
  lemma EarlySyncReverts(cfg: Settings, b: Backend, o: nat, input: ProgressInput, actor: Option<nat>)
    requires UniqueDeals(b.orders) && o < |b.orders| && Agrees(cfg, b, o) && !Pending(b, b.orders[o].dealId)
    ensures var before, entered := b.orders[o], UpdatedOrder(b.orders[o], input);
      var (b', outcome) := SyncStep(cfg, UpdateProgressStep(b, o, input, actor).0, before.dealId);
      var stageless := LeadStage(cfg, b.leads[before.dealId]).None?;
      outcome == Done ==>
        && o < |b'.orders|
        && SameIn(b'.orders[o], before, CommentOf) && SameIn(b'.orders[o], before, ProgressOf)
        && SameIn(b'.orders[o], if stageless then entered else before, StageOf)
        && (SameEntry(b'.orders[o], entered) <==>
              SameIn(entered, before, ProgressOf) && SameIn(entered, before, CommentOf)
              && (stageless || SameIn(entered, before, StageOf)))
  {
    var dealId, b1 := b.orders[o].dealId, UpdateProgressStep(b, o, input, actor).0;
    DrainedWithoutJobs(cfg, b.leads[dealId], dealId, b.queue);
    UpdateKeepsDeals(b, o, input, actor);
    if SyncStep(cfg, b1, dealId).1 == Done {
      SyncReads(cfg, b1, dealId, o);
    }
  }

  predicate SameEntry(a: Order, b: Order) {
    SameIn(a, b, StageOf) && SameIn(a, b, ProgressOf) && SameIn(a, b, CommentOf)
  }

  // ------------------------------------------------------ once the worker has caught up

  /** The step neither updates order o nor edits the lead of its deal. */
  predicate Elsewhere(step: Step, o: nat, dealId: int) {
    !(step.Update? && step.orderId == o) && !(step.EditLead? && step.dealId == dealId)
  }

  /** Such a step leaves the drained lead as it is, whatever it does to the queue. */
  lemma ElsewhereKeepsDrained(cfg: Settings, b: Backend, step: Step, o: nat)
    requires UniqueDeals(b.orders) && o < |b.orders| && b.orders[o].dealId in b.leads && Elsewhere(step, o, b.orders[o].dealId)
    ensures var b', dealId := Next(cfg, b, step), b.orders[o].dealId;
      && UniqueDeals(b'.orders) && o < |b'.orders| && b'.orders[o].dealId == dealId && dealId in b'.leads
      && SameButTime(Drained(cfg, b'.leads[dealId], dealId, b'.queue), Drained(cfg, b.leads[dealId], dealId, b.queue))
  {
    var b', dealId := Next(cfg, b, step), b.orders[o].dealId;
    OrdersGrow(cfg, b, step);
    if step.Work? && b.queue != [] {
      DrainHead(cfg, b.leads[dealId], b'.leads[dealId], dealId, b.queue, b.now);
    } else if step.Update? && b'.queue != b.queue {
      assert b'.queue[..|b.queue|] == b.queue && b.orders[step.orderId].dealId != dealId;
    }
  }

  lemma {:induction false} RunKeepsDrained(cfg: Settings, b: Backend, steps: seq<Step>, o: nat)
    requires UniqueDeals(b.orders) && o < |b.orders| && b.orders[o].dealId in b.leads
    requires forall i :: 0 <= i < |steps| ==> Elsewhere(steps[i], o, b.orders[o].dealId)
    ensures var b', dealId := Execute(cfg, b, steps), b.orders[o].dealId;
      && UniqueDeals(b'.orders) && o < |b'.orders| && b'.orders[o].dealId == dealId && dealId in b'.leads
      && SameButTime(Drained(cfg, b'.leads[dealId], dealId, b'.queue), Drained(cfg, b.leads[dealId], dealId, b.queue))
    decreases steps
  {
    if steps == [] {
    } else {
      ElsewhereKeepsDrained(cfg, b, steps[0], o);
      RunKeepsDrained(cfg, Next(cfg, b, steps[0]), steps[1..], o);
    }
  }

  /** As soon as no job of the deal is left, the next sync takes the entered values over again:
      of every aspect the last one entered, the stage unless the lead's status is mapped. In
      between, other orders may be updated, other leads edited and any lead synced. */
  lemma LateSyncHeals(cfg: Settings, b: Backend, o: nat, steps: seq<Step>)
    requires DistinctIds(cfg.ids) && UniqueDeals(b.orders) && o < |b.orders| && b.orders[o].dealId in b.leads
    requires forall i :: 0 <= i < |steps| ==> Elsewhere(steps[i], o, b.orders[o].dealId)
    requires !Pending(Execute(cfg, b, steps), b.orders[o].dealId)
    ensures var dealId := b.orders[o].dealId;
      var entered, status := PendingInput(b.queue, dealId), StatusStage(cfg.statusToStage, b.leads[dealId]);
      var (b', outcome) := SyncStep(cfg, Execute(cfg, b, steps), dealId);
      outcome == Done ==>
        && o < |b'.orders|
        && (entered.comment.Some? ==> b'.orders[o].comment == entered.comment)
        && (entered.progress.Some? ==> b'.orders[o].progress == ClampPercent(entered.progress.value))
        && (entered.stage.Some? && status.None? ==> b'.orders[o].stage == entered.stage.value)
  {
    var dealId, worked := b.orders[o].dealId, Execute(cfg, b, steps);
    RunKeepsDrained(cfg, b, steps, o);
    DrainedWithoutJobs(cfg, worked.leads[dealId], dealId, worked.queue);
    if SyncStep(cfg, worked, dealId).1 == Done {
      SyncReads(cfg, worked, dealId, o);
      DrainedShows(cfg, b.leads[dealId], worked.leads[dealId], dealId, b.queue);
    }
  }

  /** What can be read from a lead that equals the drained one. */
  lemma DrainedShows(cfg: Settings, lead: Lead, drained: Lead, dealId: int, queue: seq<Job>)
    requires DistinctIds(cfg.ids) && SameButTime(drained, Drained(cfg, lead, dealId, queue))
    ensures var entered := PendingInput(queue, dealId);
      && (entered.comment.Some? ==> ReadString(cfg.js, Fields(drained), cfg.ids.comment) == entered.comment)
      && (entered.progress.Some? ==> LeadPercent(cfg, drained) == Some(ClampPercent(entered.progress.value)))
      && (entered.stage.Some? && StatusStage(cfg.statusToStage, lead).None? ==>
            LeadStage(cfg, drained).Some? && ParseStage(LeadStage(cfg, drained).value) == entered.stage)
  {
    var entered := PendingInput(queue, dealId);
    DrainedReads(cfg, lead, dealId, queue, cfg.ids.comment);
    DrainedReads(cfg, lead, dealId, queue, cfg.ids.progress);
    DrainedReads(cfg, lead, dealId, queue, cfg.ids.stage);
    if entered.stage.Some? { ParseStageName(entered.stage.value); }
  }

  // ------------------------------------------------------------- a run that shows both

  /** A lead in the stage of detailing, its customer, and no order yet. */
  function DemoStart(cfg: Settings, now: int): Backend {
    var lead := Lead(7, None, None, 0, Some([Field(cfg.ids.stage, [Text(StageName(Detailing))])]), Some(1));
    Backend([], [], [], {}, [], map[7 := lead], map[1 := Contact(1, None, Some("x"))], Identity.Store([], [], [], now), now)
  }

  predicate OnlyCustomer(users: seq<Identity.User>) {
    |users| <= 1 && forall i :: 0 <= i < |users| ==> users[i].phone == Some("x") && users[i].contactId == Some(1)
  }

  /** Syncs of a lead with that customer succeed again and again. */
  lemma DemoSync(cfg: Settings, b: Backend)
    requires 7 in b.leads && b.leads[7].contactId == Some(1) && b.contacts == map[1 := Contact(1, None, Some("x"))]
    requires Pull(cfg.js, cfg.ids, cfg.statusToStage, b.leads[7]).Ok? && OnlyCustomer(b.identity.users)
    ensures SyncStep(cfg, b, 7).1 == Done && OnlyCustomer(SyncStep(cfg, b, 7).0.identity.users)
  {
    DemoUpsert(b.identity);
  }

  lemma DemoUpsert(s: Identity.Store)
    requires OnlyCustomer(s.users)
    ensures Phone.StoredPhone("x") == "x"
    ensures var (s', reply) := Identity.CrmUpsertStep(s, "x", 1, None);
      !reply.Failed? && OnlyCustomer(s'.users) && Identity.FindUser(s'.users, "x").Some?
  {
    assert Phone.Digits("x") == "" && !Phone.HadPlus("x");
    var s' := Identity.CrmUpsertStep(s, "x", 1, None).0;
    assert |s'.users| == 1 && s'.users[0].phone == Some("x");
  }

  lemma DemoPull(cfg: Settings, now: int)
    requires DistinctIds(cfg.ids)
    ensures var lead := DemoStart(cfg, now).leads[7];
      && Pull(cfg.js, cfg.ids, cfg.statusToStage, lead).Ok?
      && ReadString(cfg.js, Fields(lead), cfg.ids.comment).None?
  {
    var shown := Field(cfg.ids.stage, [Text(StageName(Detailing))]);
    assert Fields(DemoStart(cfg, now).leads[7]) == [shown];
    ParseStageName(Detailing);
    ReadSingle(shown, cfg.ids.stage);
    ReadSingle(shown, cfg.ids.comment);
  }

  /** The worker pushes the one job, and the sync after it reads what it wrote. */
  lemma DemoWorkSync(cfg: Settings, b: Backend, lead: Lead, input: ProgressInput, now: int)
    requires DistinctIds(cfg.ids) && input.comment.Some? && lead == DemoStart(cfg, now).leads[7]
    requires b.queue == [Job(JobId(0, now), 7, input)] && b.now == now && 7 in b.leads && b.leads[7] == lead
    requires b.contacts == map[1 := Contact(1, None, Some("x"))] && OnlyCustomer(b.identity.users)
    requires UniqueDeals(b.orders) && |b.orders| == 1 && b.orders[0].dealId == 7
    ensures var synced := SyncStep(cfg, Next(cfg, b, Work), 7);
      synced.1 == Done && |synced.0.orders| == 1 && synced.0.orders[0].comment == input.comment
  {
    var worked := Next(cfg, b, Work);
    DemoPull(cfg, now);
    PushThenPull(cfg.js, cfg.ids, cfg.statusToStage, lead, input, now);
    TextsAfterPush(cfg.js, cfg.ids, lead, input, now);
    assert worked.leads[7] == Push(lead, input, cfg.ids, now);
    DemoSync(cfg, worked);
    SyncReads(cfg, worked, 7, 0);
  }

  /** A comment is entered, overtaken by a sync and gone; after the worker the next sync has
      it back. Each of the syncs succeeds. */
  lemma EntryLostAndFound(cfg: Settings, now: int, text: string)
    requires DistinctIds(cfg.ids)
    ensures var created := Next(cfg, DemoStart(cfg, now), Sync(7));
      var entered := Next(cfg, created, Update(0, ProgressInput(None, None, Some(text)), None));
      var overtaken := SyncStep(cfg, entered, 7);
      var healed := SyncStep(cfg, Next(cfg, overtaken.0, Work), 7);
      && |entered.orders| == 1 && entered.orders[0].comment == Some(text)
      && overtaken.1 == Done && |overtaken.0.orders| == 1 && overtaken.0.orders[0].comment == None
      && healed.1 == Done && |healed.0.orders| == 1 && healed.0.orders[0].comment == Some(text)
  {
    var b0, input := DemoStart(cfg, now), ProgressInput(None, None, Some(text));
    DemoPull(cfg, now);
    DemoSync(cfg, b0);
    var created := Next(cfg, b0, Sync(7));
    var entered := Next(cfg, created, Update(0, input, None));
    DemoSync(cfg, entered);
    var overtaken := SyncStep(cfg, entered, 7).0;
    SyncReads(cfg, entered, 7, 0);
    assert entered.queue == [Job(JobId(0, now), 7, input)];
    DemoWorkSync(cfg, overtaken, b0.leads[7], input, now);
  }

  /** Two comments are entered in one millisecond. The second job is dropped, the worker pushes
      the first comment, and the next sync puts it in the place of the second. */
  lemma SecondEntryDropped(cfg: Settings, now: int, first: string, second: string)
    requires DistinctIds(cfg.ids)
    ensures var created := Next(cfg, DemoStart(cfg, now), Sync(7));
      var once := Next(cfg, created, Update(0, ProgressInput(None, None, Some(first)), None));
      var twice := Next(cfg, once, Update(0, ProgressInput(None, None, Some(second)), None));
      var synced := SyncStep(cfg, Next(cfg, twice, Work), 7);
      && twice.queue == once.queue && |twice.orders| == 1 && twice.orders[0].comment == Some(second)
      && synced.1 == Done && |synced.0.orders| == 1 && synced.0.orders[0].comment == Some(first)
  {
    var b0, input := DemoStart(cfg, now), ProgressInput(None, None, Some(first));
    DemoPull(cfg, now);
    DemoSync(cfg, b0);
    var created := Next(cfg, b0, Sync(7));
    var once := Next(cfg, created, Update(0, input, None));
    assert once.queue == [Job(JobId(0, now), 7, input)] && JobId(0, now) in once.usedIds;
    var twice := Next(cfg, once, Update(0, ProgressInput(None, None, Some(second)), None));
    DemoWorkSync(cfg, twice, b0.leads[7], input, now);
  }

  lemma UpdateKeepsDeals(b: Backend, o: nat, input: ProgressInput, actor: Option<nat>)
    requires UniqueDeals(b.orders) && o < |b.orders|
    ensures UniqueDeals(UpdateProgressStep(b, o, input, actor).0.orders)
  {
  }

  lemma OnlyOrderOfDeal(orders: seq<Order>, dealId: int, o: nat)
    requires UniqueDeals(orders) && o < |orders| && orders[o].dealId == dealId
    ensures FindOrder(orders, dealId) == Some(o)
  {
  }

  // --------------------------------------------------------------- the services

  /** The tables, the outbound queue and the CRM, with the methods that change them. */
  class OrderService {
    const cfg: Settings
    var orders: seq<Order>
    var history: seq<HistoryRow>
    var queue: seq<Job>
    var usedIds: set<JobId>
    var requests: seq<Request>
    var leads: map<int, Lead>
    var contacts: map<int, Contact>
    var identity: Identity.Store
    var now: int

    function Snapshot(): Backend
      reads this
    {
      Backend(orders, history, queue, usedIds, requests, leads, contacts, identity, now)
    }

    constructor (cfg: Settings, leads: map<int, Lead>, contacts: map<int, Contact>, identity: Identity.Store, now: int)
      ensures this.cfg == cfg
      ensures Snapshot() == Backend([], [], [], {}, [], leads, contacts, identity, now) && forall dealId :: Mirrored(cfg, Snapshot(), {}, dealId)
    {
      this.cfg, this.leads, this.contacts, this.identity, this.now := cfg, leads, contacts, identity, now;
      orders, history, queue, usedIds, requests := [], [], [], {}, [];
    }

    method AddJob(job: Job)
      modifies this`queue, this`usedIds
      ensures Snapshot() == Enqueue(old(Snapshot()), job)
    {
      if job.id !in usedIds {
        queue := queue + [job];
        usedIds := usedIds + {job.id};
      }
    }

    /** The event handler; returns after a ready request as the source does. */
    method HandleProgress(orderId: nat, oldStage: Stage, oldPercent: int, newStage: Stage, newPercent: real)
      modifies this`requests
      ensures requests == old(requests) + Classify(orderId, oldStage, oldPercent, newStage, newPercent)
    {
      var stageChanged := oldStage != newStage;
      var delta := newPercent - oldPercent as real;
      if delta < 0.0 { delta := -delta; }
      if newStage == ReadyForDelivery && stageChanged {
        requests := requests + [Ready(orderId)];
        return;
      }
      if stageChanged {
        requests := requests + [StageChanged(orderId, newStage, oldStage)];
      } else if delta >= 10.0 {
        requests := requests + [ProgressChanged(orderId, newPercent, oldPercent)];
      }
    }

    method UpdateProgress(orderId: nat, input: ProgressInput, actor: Option<nat>) returns (r: Outcome)
      modifies this`orders, this`history, this`queue, this`usedIds, this`requests
      ensures (Snapshot(), r) == UpdateProgressStep(old(Snapshot()), orderId, input, actor)
    {
      if orderId >= |orders| { return OrderNotFound; }
      var order := orders[orderId];
      var row := order.(version := order.version + 1);
      if input.stage.Some? { row := row.(stage := input.stage.value); }
      if input.progress.Some? { row := row.(progress := ClampPercent(input.progress.value)); }
      if input.comment.Some? { row := row.(comment := input.comment); }
      orders := orders[orderId := row];
      var stage := input.stage.GetOr(order.stage);
      var percent := input.progress.GetOr(order.progress as real);
      history := history + [HistoryRow(orderId, stage, percent, input.comment, actor)];
      AddJob(Job(JobId(orderId, now), order.dealId, input));
      HandleProgress(orderId, order.stage, order.progress, stage, percent);
      r := Done;
    }

    /** The outbound worker takes the oldest job. */
    method Process()
      modifies this`queue, this`leads
      ensures Snapshot() == WorkStep(cfg, old(Snapshot()))
    {
      if queue == [] { return; }
      var job := queue[0];
      queue := queue[1..];
      var fields := OrderToCustomFields(job.input, cfg.ids);
      if job.dealId in leads {
        if fields == [] {
          assert leads[job.dealId := leads[job.dealId]] == leads;
          return;
        }
        leads := leads[job.dealId := PatchedLead(leads[job.dealId], fields, now)];
      }
    }

    method SyncDealById(dealId: int) returns (r: Outcome)
      modifies this`orders, this`identity
      ensures (Snapshot(), r) == SyncStep(cfg, old(Snapshot()), dealId)
    {
      if dealId !in leads { return LeadNotFound; }
      var pulled := LeadToOrderPatch(cfg.js, leads[dealId], cfg.ids, cfg.statusToStage);
      if pulled.Err? { return BadStage; }
      var patch := pulled.value;
      if patch.contactId.None? || patch.contactId.value == 0 { return NoContact; }
      if patch.contactId.value !in contacts { return ContactNotFound; }
      var contact := contacts[patch.contactId.value];
      if contact.phone.None? || contact.phone.value == "" { return NoPhone; }
      var upsert := Identity.CrmUpsertStep(identity, contact.phone.value, contact.id, contact.name);
      var client := Identity.FindUser(upsert.0.users, Phone.StoredPhone(contact.phone.value));
      if upsert.1.Failed? || client.None? { return UpsertFailed; }
      identity := upsert.0;
      var existing := FindOrder(orders, dealId);
      if existing.Some? {
        orders := orders[existing.value := SyncedOrder(orders[existing.value], patch, now)];
      } else {
        orders := orders + [NewOrder(dealId, client.value, patch, now)];
      }
      r := Done;
    }
  }
}
