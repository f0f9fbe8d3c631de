/** What a sync writes (syncDealById in amocrm-sync.service.ts), told by the lead, its contact
    and the accounts: each field of the order, whose order it is, and when a sync fails. */
module OrderSync {
  import opened Wrappers
  import opened CrmLens
  import opened OrderMirror
  import opened ContactIds
  import Phone
  import Identity

  // ------------------------------------------------------------------ fields and client

  /** The lead's partner services: what its field holds if that is JSON, and otherwise none. */
  function LeadServices(cfg: Settings, lead: Lead): Json {
    var text := ReadString(cfg.js, Fields(lead), cfg.ids.services);
    if text.Some? && cfg.js.json(text.value).Some? then cfg.js.json(text.value).value else NO_SERVICES
  }

  /** The order holds what the lead says, field by field; `stage` is for a lead without one. */
  predicate WrittenFrom(cfg: Settings, order: Order, lead: Lead, stage: Stage, now: int) {
    && (order.productName.Some? <==> lead.name.Some? && lead.name.value != "")
    && (order.productName.Some? ==> order.productName == lead.name)
    && (LeadStage(cfg, lead).None? ==> order.stage == stage)
    && (LeadStage(cfg, lead).Some? ==> StageName(order.stage) == LeadStage(cfg, lead).value)
    && order.progress == LeadPercent(cfg, lead).GetOr(0)
    && order.comment == ReadString(cfg.js, Fields(lead), cfg.ids.comment)
    && order.prepayment == ReadNumber(cfg.js, Fields(lead), cfg.ids.prepayment)
    && order.services == LeadServices(cfg, lead)
    && order.syncedAt == now
  }

  /** The account has this contact's phone in stored form and its contact id. */
  predicate AccountOf(users: seq<Identity.User>, u: nat, contact: Contact) {
    && u < |users| && contact.phone.Some?
    && users[u].phone == Some(Phone.StoredPhone(contact.phone.value)) && users[u].contactId == Some(contact.id)
    && (contact.name.Some? ==> users[u].firstName == contact.name)
  }

  lemma {:induction false} ParsedName(stages: seq<Stage>, name: string)
    ensures ParseAmong(stages, name).Some? ==> StageName(ParseAmong(stages, name).value) == name
  {
    if stages == [] {
    } else {
      ParsedName(stages[1..], name);
    }
  }

  lemma UpsertAttaches(s: Identity.Store, raw: string, contactId: int, name: Option<string>)
    requires !Identity.CrmUpsertStep(s, raw, contactId, name).1.Failed?
    ensures var s', phone := Identity.CrmUpsertStep(s, raw, contactId, name).0, Some(Phone.StoredPhone(raw));
      && |s.users| <= |s'.users|
      && (forall u :: 0 <= u < |s'.users| && s'.users[u].phone == phone && (u >= |s.users| || s'.users[u] != s.users[u])
            ==> s'.users[u].contactId == Some(contactId) && (name.Some? ==> s'.users[u].firstName == name))
      && (forall u :: 0 <= u < |s.users| && s.users[u].phone != phone ==> s'.users[u] == s.users[u])
      && (exists u :: 0 <= u < |s'.users| && s'.users[u].phone == phone && s'.users[u].contactId == Some(contactId))
      && (forall u :: 0 <= u < |s.users| ==> s'.users[u].(contactId := s.users[u].contactId, firstName := s.users[u].firstName) == s.users[u])
      && (forall u :: |s.users| <= u < |s'.users| ==> s'.users[u] == Identity.User(phone, Identity.Client, name, None, Some(contactId), None))
      && s'.codes == s.codes && s'.sessions == s.sessions
  {
    var found := Identity.FindUser(s.users, Phone.StoredPhone(raw));
    var s' := Identity.CrmUpsertStep(s, raw, contactId, name).0;
    var u := if found.Some? then found.value else |s.users|;
    assert s'.users[u].phone == Some(Phone.StoredPhone(raw)) && s'.users[u].contactId == Some(contactId);
  }

  /** The account that the upsert finds or creates is the contact's. */
  lemma UpsertedAccount(s: Identity.Store, contact: Contact, u: nat)
    requires Identity.Consistent(s) && contact.phone.Some?
    requires var (s', reply) := Identity.CrmUpsertStep(s, contact.phone.value, contact.id, contact.name);
      && !reply.Failed? && Identity.FindUser(s'.users, Phone.StoredPhone(contact.phone.value)) == Some(u)
    ensures AccountOf(Identity.CrmUpsertStep(s, contact.phone.value, contact.id, contact.name).0.users, u, contact)
  {
    var phone := Phone.StoredPhone(contact.phone.value);
    var s' := Identity.CrmUpsertStep(s, contact.phone.value, contact.id, contact.name).0;
    Identity.CrmUpsertKeepsConsistent(s, contact.phone.value, contact.id, contact.name);
    var found := Identity.FindUser(s.users, phone);
    var v := if found.Some? then found.value else |s.users|;
    assert s'.users[v].phone == Some(phone);
    assert v == u;
  }

  /** The contact that the lead names first. */
  predicate LeadContact(b: Backend, lead: Lead, contact: Contact) {
    lead.contactId.Some? && lead.contactId.value in b.contacts && b.contacts[lead.contactId.value] == contact
  }

  lemma PlanTells(cfg: Settings, b: Backend, dealId: int)
    requires Identity.Consistent(b.identity) && PlanSync(cfg, b, dealId).Ok?
    ensures var plan := PlanSync(cfg, b, dealId).value;
      && dealId in b.leads && b.leads[dealId].contactId.Some? && b.leads[dealId].contactId.value in b.contacts
      && AccountOf(plan.identity.users, plan.client, b.contacts[b.leads[dealId].contactId.value])
  {
    var contact := b.contacts[b.leads[dealId].contactId.value];
    UpsertedAccount(b.identity, contact, PlanSync(cfg, b, dealId).value.client);
  }

  lemma PatchWrites(cfg: Settings, order: Order, dealId: int, client: nat, lead: Lead, now: int)
    requires Pull(cfg.js, cfg.ids, cfg.statusToStage, lead).Ok?
    ensures var patch := Pull(cfg.js, cfg.ids, cfg.statusToStage, lead).value;
      && WrittenFrom(cfg, SyncedOrder(order, patch, now), lead, order.stage, now)
      && WrittenFrom(cfg, NewOrder(dealId, client, patch, now), lead, PreparationForProduction, now)
  {
    if LeadStage(cfg, lead).Some? { ParsedName(STAGES, LeadStage(cfg, lead).value); }
  }

  /** A sync that succeeds leaves the deal one order, written from the lead field by field. An
      order it creates belongs to the account of the lead's contact; an order that was there
      keeps its client, contract number and place. Nothing else but accounts has changed. */
  lemma SyncWritesLead(cfg: Settings, b: Backend, dealId: int, o: nat)
    requires UniqueDeals(b.orders) && Identity.Consistent(b.identity) && SyncStep(cfg, b, dealId).1 == Done
    requires o < |SyncStep(cfg, b, dealId).0.orders| && SyncStep(cfg, b, dealId).0.orders[o].dealId == dealId
    ensures var b' := SyncStep(cfg, b, dealId).0;
      var order := b'.orders[o];
      && dealId in b.leads && b' == b.(orders := b'.orders, identity := b'.identity)
      && WrittenFrom(cfg, order, b.leads[dealId], if o < |b.orders| then b.orders[o].stage else PreparationForProduction, b.now)
      && (o < |b.orders| ==>
            && |b'.orders| == |b.orders| && b.orders[o].dealId == dealId
            && order.clientUserId == b.orders[o].clientUserId && order.contractNumber == b.orders[o].contractNumber
            && order.version == b.orders[o].version + 1)
      && (o >= |b.orders| ==>
            && o == |b.orders| == |b'.orders| - 1 && !HasDeal(b.orders, dealId)
            && order.contractNumber.None? && order.version == 0
            && exists contact :: LeadContact(b, b.leads[dealId], contact) && AccountOf(b'.identity.users, order.clientUserId, contact))
      && (forall x :: 0 <= x < |b.orders| && x != o ==> b'.orders[x] == b.orders[x])
  {
    var plan, lead := PlanSync(cfg, b, dealId).value, b.leads[dealId];
    PlanTells(cfg, b, dealId);
    PatchWrites(cfg, SyncStep(cfg, b, dealId).0.orders[o], dealId, plan.client, lead, b.now);
    if o < |b.orders| {
      OtherThanFound(cfg, b, dealId, o);
      PatchWrites(cfg, b.orders[o], dealId, plan.client, lead, b.now);
    } else {
      assert LeadContact(b, lead, b.contacts[lead.contactId.value]);
    }
  }

  lemma OtherThanFound(cfg: Settings, b: Backend, dealId: int, o: nat)
    requires UniqueDeals(b.orders) && SyncStep(cfg, b, dealId).1 == Done && o < |b.orders|
    requires o < |SyncStep(cfg, b, dealId).0.orders| && SyncStep(cfg, b, dealId).0.orders[o].dealId == dealId
    ensures FindOrder(b.orders, dealId) == Some(o)
  {
    assert b.orders[o].dealId == dealId;
    OnlyOrderOfDeal(b.orders, dealId, o);
  }

  // ------------------------------------------------------------------ when a sync fails

  ghost predicate StageReadable(cfg: Settings, lead: Lead) {
    LeadStage(cfg, lead).Some? ==> exists s :: StageName(s) == LeadStage(cfg, lead).value
  }

  predicate NamesContact(lead: Lead) {
    lead.contactId.Some? && lead.contactId.value != 0
  }

  predicate HasPhone(contact: Contact) {
    contact.phone.Some? && contact.phone.value != ""
  }

  /** Another account than the one with the contact's phone holds the contact's id. */
  ghost predicate HeldElsewhere(s: Identity.Store, contact: Contact)
    requires contact.phone.Some?
  {
    exists u :: Holds(s, u, contact.id) && s.users[u].phone != Some(Phone.StoredPhone(contact.phone.value))
  }

  lemma ReadableIff(cfg: Settings, lead: Lead)
    ensures StageReadable(cfg, lead) <==> Pull(cfg.js, cfg.ids, cfg.statusToStage, lead).Ok?
  {
    if LeadStage(cfg, lead).Some? {
      var name := LeadStage(cfg, lead).value;
      ParsedName(STAGES, name);
      if s :| StageName(s) == name {
        ParseStageName(s);
      }
    }
  }

  lemma AttachedIff(s: Identity.Store, contact: Contact)
    requires Identity.Consistent(s) && HasPhone(contact)
    ensures var (s', reply) := Identity.CrmUpsertStep(s, contact.phone.value, contact.id, contact.name);
      && (reply.Failed? <==> HeldElsewhere(s, contact))
      && (!reply.Failed? ==> Identity.FindUser(s'.users, Phone.StoredPhone(contact.phone.value)).Some?)
  {
    RefusedIff(s, contact.phone.value, contact.id, contact.name);
    if !Identity.CrmUpsertStep(s, contact.phone.value, contact.id, contact.name).1.Failed? {
      UpsertAttaches(s, contact.phone.value, contact.id, contact.name);
    }
  }

  /** Which sync succeeds, and what the others report: each error in its place, and an error
      changes nothing. */
  lemma SyncFailsIff(cfg: Settings, b: Backend, dealId: int)
    requires Identity.Consistent(b.identity)
    ensures var (b', outcome) := SyncStep(cfg, b, dealId);
      && (outcome != Done ==> b' == b)
      && (outcome == LeadNotFound <==> dealId !in b.leads)
      && (dealId in b.leads ==>
            var lead := b.leads[dealId];
            && (outcome == BadStage <==> !StageReadable(cfg, lead))
            && (StageReadable(cfg, lead) ==>
                  && (outcome == NoContact <==> !NamesContact(lead))
                  && (NamesContact(lead) ==>
                        && (outcome == ContactNotFound <==> lead.contactId.value !in b.contacts)
                        && (lead.contactId.value in b.contacts ==>
                              var contact := b.contacts[lead.contactId.value];
                              && (outcome == NoPhone <==> !HasPhone(contact))
                              && (HasPhone(contact) ==>
                                    && (outcome == UpsertFailed <==> HeldElsewhere(b.identity, contact))
                                    && (outcome == Done <==> !HeldElsewhere(b.identity, contact)))))))
  {
    if dealId in b.leads {
      var lead := b.leads[dealId];
      ReadableIff(cfg, lead);
      if StageReadable(cfg, lead) && NamesContact(lead) && lead.contactId.value in b.contacts && HasPhone(b.contacts[lead.contactId.value]) {
        AttachedIff(b.identity, b.contacts[lead.contactId.value]);
      }
    }
  }

  // ------------------------------------------------------------------------ whole runs

  /** Every order belongs to an account. */
  predicate ClientsKnown(b: Backend) {
    forall o :: 0 <= o < |b.orders| ==> b.orders[o].clientUserId < |b.identity.users|
  }

  /** Between the two tables no order changes its client or its deal, and none is lost. */
  predicate SameClients(orders: seq<Order>, orders': seq<Order>) {
    && |orders| <= |orders'|
    && forall o :: 0 <= o < |orders| ==> orders'[o].clientUserId == orders[o].clientUserId && orders'[o].dealId == orders[o].dealId
  }

  lemma ApplyKeepsClients(b: Backend, dealId: int, plan: SyncPlan)
    requires ClientsKnown(b) && |b.identity.users| <= |plan.identity.users| && plan.client < |plan.identity.users|
    ensures ClientsKnown(ApplySync(b, dealId, plan)) && SameClients(b.orders, ApplySync(b, dealId, plan).orders)
  {
  }

  lemma PlanKeepsAccounts(cfg: Settings, b: Backend, dealId: int)
    requires Identity.Consistent(b.identity) && PlanSync(cfg, b, dealId).Ok?
    ensures var plan := PlanSync(cfg, b, dealId).value;
      Identity.Consistent(plan.identity) && |b.identity.users| <= |plan.identity.users| && plan.client < |plan.identity.users|
  {
    PlanTells(cfg, b, dealId);
    var contact := b.contacts[b.leads[dealId].contactId.value];
    Identity.CrmUpsertKeepsConsistent(b.identity, contact.phone.value, contact.id, contact.name);
  }

  lemma SyncKeepsClients(cfg: Settings, b: Backend, dealId: int)
    requires Identity.Consistent(b.identity) && ClientsKnown(b)
    ensures var b' := SyncStep(cfg, b, dealId).0;
      Identity.Consistent(b'.identity) && ClientsKnown(b') && SameClients(b.orders, b'.orders)
  {
    if PlanSync(cfg, b, dealId).Ok? {
      PlanKeepsAccounts(cfg, b, dealId);
      ApplyKeepsClients(b, dealId, PlanSync(cfg, b, dealId).value);
    }
  }

  lemma StepKeepsClients(cfg: Settings, b: Backend, step: Step)
    requires Identity.Consistent(b.identity) && ClientsKnown(b)
    ensures var b' := Next(cfg, b, step);
      Identity.Consistent(b'.identity) && ClientsKnown(b') && SameClients(b.orders, b'.orders)
  {
    match step
    case Sync(dealId) => SyncKeepsClients(cfg, b, dealId);
    case _ =>
  }

  /** Over every run, no order ever changes its client or its deal, none is lost, and each
      belongs to an account. */
  lemma {:induction false} ClientNeverChanges(cfg: Settings, b: Backend, steps: seq<Step>)
    requires Identity.Consistent(b.identity) && ClientsKnown(b)
    ensures ClientsKnown(Execute(cfg, b, steps)) && SameClients(b.orders, Execute(cfg, b, steps).orders)
    decreases steps
  {
    if steps == [] {
    } else {
      StepKeepsClients(cfg, b, steps[0]);
      ClientNeverChanges(cfg, Next(cfg, b, steps[0]), steps[1..]);
    }
  }

  // ------------------------------------------------------------- what a bad field costs

  /** The mapper means to leave the services alone where the lead's field is no JSON; the sync
      then writes none. They survive exactly when there were none. */
  lemma BadServicesEraseIff(cfg: Settings, b: Backend, dealId: int, o: nat)
    requires UniqueDeals(b.orders) && Identity.Consistent(b.identity) && SyncStep(cfg, b, dealId).1 == Done
    requires o < |b.orders| && b.orders[o].dealId == dealId && dealId in b.leads
    requires var text := ReadString(cfg.js, Fields(b.leads[dealId]), cfg.ids.services); text.Some? ==> cfg.js.json(text.value).None?
    ensures var b' := SyncStep(cfg, b, dealId).0;
      && o < |b'.orders| && b'.orders[o].services == NO_SERVICES
      && (b'.orders[o].services == b.orders[o].services <==> b.orders[o].services == NO_SERVICES)
  {
    SyncKeepsPlaces(cfg, b, dealId, o);
    SyncWritesLead(cfg, b, dealId, o);
  }

  lemma SyncKeepsPlaces(cfg: Settings, b: Backend, dealId: int, o: nat)
    requires o < |b.orders|
    ensures var b' := SyncStep(cfg, b, dealId).0; o < |b'.orders| && b'.orders[o].dealId == b.orders[o].dealId
  {
  }
}
