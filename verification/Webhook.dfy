/** The CRM webhook (amocrm-webhook.controller.ts) with its idempotency window
    (amocrm-idempotency.service.ts). The body has been parsed; an item's `id` has been
    turned into a number, and the event id of a lead is an abstract string. */
module Webhook {
  import opened Wrappers
  import opened InsertionMap
  import opened TtlStore

  datatype JsNumber = Finite(value: real) | NotFinite

  /** An element of a section; anything but an object is skipped. */
  datatype Item = NotObject | Entity(id: JsNumber)

  /** A section is missing, an array, or an object keyed by index. */
  datatype Section = Missing | Listed(items: seq<Item>) | Indexed(entries: seq<(string, Item)>)

  datatype Delivery = Delivery(add: Section, update: Section, status: Section)

  const TTL_MS := 600_000

  /** Number.isInteger(id) && id > 0 */
  predicate IsLeadId(n: JsNumber) {
    n.Finite? && n.value == n.value.Floor as real && n.value > 0.0
  }

  function Items(section: Section): seq<Item> {
    match section
    case Missing => []
    case Listed(items) => items
    case Indexed(entries) => ValuesOf(entries)
  }

  function ValuesOf(entries: seq<(string, Item)>): seq<Item> {
    if entries == [] then [] else [entries[0].1] + ValuesOf(entries[1..])
  }

  function IdsOf(items: seq<Item>): seq<int> {
    if items == [] then []
    else
      IdsOf(items[..|items| - 1]) +
      (match items[|items| - 1]
       case Entity(n) => if IsLeadId(n) then [n.value.Floor] else []
       case NotObject => [])
  }

  method ExtractIds(section: Section) returns (ids: seq<int>)
    ensures ids == IdsOf(Items(section))
  {
    var items := Items(section);
    ids := [];
    for i := 0 to |items|
      invariant ids == IdsOf(items[..i])
    {
      assert items[..i + 1][..i] == items[..i];
      if items[i].Entity? && IsLeadId(items[i].id) {
        ids := ids + [items[i].id.value.Floor];
      }
    }
    assert items[..|items|] == items;
  }

  const SELF: int -> int := (id: int) => id

  /** The Set of ids over the three sections, in insertion order. */
  function LeadIds(d: Delivery): seq<int> {
    PutAll(SELF, [], IdsOf(Items(d.add)) + IdsOf(Items(d.update)) + IdsOf(Items(d.status)))
  }

  // -------------------------------------------------------------------- receiving

  /** A job in the inbound queue. */
  datatype Job = Job(lead: int, at: int)

  datatype State = State(expires: map<string, int>, queue: seq<Job>)

  function MarkOne(eventId: int -> string, s: State, id: int, now: int): (State, bool) {
    var (expires', isNew) := SetIfAbsent(s.expires, eventId(id), TTL_MS, now);
    if isNew then (State(expires', s.queue + [Job(id, now)]), true) else (s, false)
  }

  /** The loop over the ids: each one is marked, and enqueued if the mark is new. */
  function ReceiveIds(eventId: int -> string, s: State, ids: seq<int>, now: int): (State, nat) {
    if ids == [] then (s, 0)
    else
      var (s1, accepted) := ReceiveIds(eventId, s, ids[..|ids| - 1], now);
      var (s2, isNew) := MarkOne(eventId, s1, ids[|ids| - 1], now);
      (s2, if isNew then accepted + 1 else accepted)
  }

  function ReceiveStep(eventId: int -> string, s: State, d: Delivery, now: int): (State, nat) {
    ReceiveIds(eventId, s, LeadIds(d), now)
  }

  // -------------------------------------------------------------------- invariant

  ghost predicate Injective(eventId: int -> string) {
    forall a, b :: eventId(a) == eventId(b) ==> a == b
  }

  function Grants(eventId: int -> string, queue: seq<Job>): (r: seq<Grant<string>>)
    ensures |r| == |queue|
    ensures forall i :: 0 <= i < |queue| ==> r[i] == Grant(eventId(queue[i].lead), queue[i].at)
  {
    if queue == [] then []
    else
      var last := queue[|queue| - 1];
      Grants(eventId, queue[..|queue| - 1]) + [Grant(eventId(last.lead), last.at)]
  }

  ghost predicate Sound(eventId: int -> string, s: State, now: int) {
    Reflects(s.expires, Grants(eventId, s.queue), TTL_MS, now)
  }

  /** The lead was enqueued less than 600 seconds before `now`, or just now. */
  predicate EnqueuedWithin(queue: seq<Job>, lead: int, now: int) {
    exists i :: 0 <= i < |queue| && queue[i].lead == lead && now - 600_000 < queue[i].at <= now
  }

  lemma WithinIsGranted(eventId: int -> string, queue: seq<Job>, lead: int, now: int)
    requires Injective(eventId)
    ensures EnqueuedWithin(queue, lead, now) <==> GrantedWithin(Grants(eventId, queue), eventId(lead), TTL_MS, now)
  {
    if EnqueuedWithin(queue, lead, now) {
      var i :| 0 <= i < |queue| && queue[i].lead == lead && now - TTL_MS < queue[i].at <= now;
      assert Grants(eventId, queue)[i].key == eventId(lead);
    }
  }

  /** A list without repetition: exactly the ids not enqueued within the window are
      enqueued, in order, and counted. */
  ghost predicate Received(queue: seq<Job>, queue': seq<Job>, ids: seq<int>, accepted: nat, now: int) {
    && queue' == queue + Stamp(Fresh(queue, ids, now), now)
    && accepted == |Fresh(queue, ids, now)|
  }

  function Fresh(queue: seq<Job>, ids: seq<int>, now: int): seq<int> {
    if ids == [] then []
    else
      var last := ids[|ids| - 1];
      Fresh(queue, ids[..|ids| - 1], now) + if EnqueuedWithin(queue, last, now) then [] else [last]
  }

  function Stamp(ids: seq<int>, now: int): (r: seq<Job>)
    ensures |r| == |ids|
    ensures forall i :: 0 <= i < |ids| ==> r[i] == Job(ids[i], now)
  {
    if ids == [] then [] else Stamp(ids[..|ids| - 1], now) + [Job(ids[|ids| - 1], now)]
  }

  lemma {:induction false} FreshAreIds(queue: seq<Job>, ids: seq<int>, now: int, id: int)
    ensures id in Fresh(queue, ids, now) <==> id in ids && !EnqueuedWithin(queue, id, now)
  {
    if ids == [] {
    } else {
      FreshAreIds(queue, ids[..|ids| - 1], now, id);
      assert ids == ids[..|ids| - 1] + [ids[|ids| - 1]];
    }
  }

  lemma NewJobsDecide(queue: seq<Job>, novel: seq<int>, lead: int, now: int)
    ensures EnqueuedWithin(queue + Stamp(novel, now), lead, now) <==> EnqueuedWithin(queue, lead, now) || lead in novel
  {
    var all := queue + Stamp(novel, now);
    if EnqueuedWithin(queue, lead, now) {
      var i :| 0 <= i < |queue| && queue[i].lead == lead && now - TTL_MS < queue[i].at <= now;
      assert all[i] == queue[i];
    }
    if lead in novel {
      var i :| 0 <= i < |novel| && novel[i] == lead;
      assert all[|queue| + i] == Job(lead, now);
    }
    if EnqueuedWithin(all, lead, now) && !EnqueuedWithin(queue, lead, now) {
      var i :| 0 <= i < |all| && all[i].lead == lead && now - TTL_MS < all[i].at <= now;
      assert i < |queue| ==> all[i] == queue[i];
      assert i >= |queue| ==> all[i] == Job(novel[i - |queue|], now);
    }
  }

  lemma StampAppend(ids: seq<int>, id: int, now: int)
    ensures Stamp(ids + [id], now) == Stamp(ids, now) + [Job(id, now)]
  {
    assert (ids + [id])[..|ids|] == ids;
  }

  lemma GrantsAppend(eventId: int -> string, queue: seq<Job>, job: Job)
    ensures Grants(eventId, queue + [job]) == Grants(eventId, queue) + [Grant(eventId(job.lead), job.at)]
  {
    assert (queue + [job])[..|queue|] == queue;
  }

  /** One more id of the list, after the effect of those before it. */
  lemma MarkAfter(eventId: int -> string, s: State, s1: State, front: seq<int>, last: int, accepted: nat, now: int)
    requires Injective(eventId) && Sound(eventId, s1, now) && Received(s.queue, s1.queue, front, accepted, now)
    requires last !in front
    ensures var (s2, isNew) := MarkOne(eventId, s1, last, now);
      Sound(eventId, s2, now) && Received(s.queue, s2.queue, front + [last], if isNew then accepted + 1 else accepted, now)
  {
    AttemptReflects(s1.expires, Grants(eventId, s1.queue), TTL_MS, now, eventId(last), now);
    WithinIsGranted(eventId, s1.queue, last, now);
    GrantsAppend(eventId, s1.queue, Job(last, now));
    ReceivedExtends(s.queue, s1.queue, front, last, accepted, now);
  }

  lemma NothingReceived(eventId: int -> string, s: State, before: int, now: int)
    requires Sound(eventId, s, before) && before <= now
    ensures Sound(eventId, s, now) && Received(s.queue, s.queue, [], 0, now)
  {
    assert s.queue + [] == s.queue;
  }

  lemma ReceiveIdsPush(eventId: int -> string, s: State, front: seq<int>, last: int, now: int)
    ensures var (s1, accepted) := ReceiveIds(eventId, s, front, now);
      var (s2, isNew) := MarkOne(eventId, s1, last, now);
      ReceiveIds(eventId, s, front + [last], now) == (s2, if isNew then accepted + 1 else accepted)
  {
    assert (front + [last])[..|front|] == front;
  }

  /** The list as far as its last id, and then that one. */
  lemma LastReceived(eventId: int -> string, s: State, s1: State, front: seq<int>, last: int, accepted: nat, now: int)
    requires Injective(eventId) && last !in front
    requires ReceiveIds(eventId, s, front, now) == (s1, accepted)
    requires Sound(eventId, s1, now) && Received(s.queue, s1.queue, front, accepted, now)
    ensures var (s', accepted') := ReceiveIds(eventId, s, front + [last], now);
      Sound(eventId, s', now) && Received(s.queue, s'.queue, front + [last], accepted', now)
  {
    MarkAfter(eventId, s, s1, front, last, accepted, now);
    ReceiveIdsPush(eventId, s, front, last, now);
  }

  lemma {:induction false} ReceiveIdsEffect(eventId: int -> string, s: State, ids: seq<int>, before: int, now: int)
    requires Injective(eventId) && Sound(eventId, s, before) && before <= now && DistinctKeys(SELF, ids)
    ensures var (s', accepted) := ReceiveIds(eventId, s, ids, now);
      Sound(eventId, s', now) && Received(s.queue, s'.queue, ids, accepted, now)
  {
    if ids == [] {
      NothingReceived(eventId, s, before, now);
    } else {
      var front, last := ids[..|ids| - 1], ids[|ids| - 1];
      assert ids == front + [last];
      LastDiffers(ids);
      ReceiveIdsEffect(eventId, s, front, before, now);
      var (s1, accepted) := ReceiveIds(eventId, s, front, now);
      LastReceived(eventId, s, s1, front, last, accepted, now);
    }
  }

  lemma LastDiffers(ids: seq<int>)
    requires ids != [] && DistinctKeys(SELF, ids)
    ensures DistinctKeys(SELF, ids[..|ids| - 1])
    ensures ids[|ids| - 1] !in ids[..|ids| - 1]
  {
    assert forall i :: 0 <= i < |ids| ==> SELF(ids[i]) == ids[i];
  }

  lemma ReceivedExtends(queue: seq<Job>, queue1: seq<Job>, front: seq<int>, last: int, accepted: nat, now: int)
    requires Received(queue, queue1, front, accepted, now) && last !in front
    ensures EnqueuedWithin(queue1, last, now) == EnqueuedWithin(queue, last, now)
    ensures if EnqueuedWithin(queue, last, now) then Received(queue, queue1, front + [last], accepted, now)
            else Received(queue, queue1 + [Job(last, now)], front + [last], accepted + 1, now)
  {
    var novel := Fresh(queue, front, now);
    NewJobsDecide(queue, novel, last, now);
    FreshAreIds(queue, front, now, last);
    StampAppend(novel, last, now);
    assert (front + [last])[..|front|] == front;
    assert novel + [] == novel;
    assert queue + Stamp(novel, now) + [Job(last, now)] == queue + (Stamp(novel, now) + [Job(last, now)]);
  }

  // ------------------------------------------------------------------ main results

  ghost function IdSet(d: Delivery): set<int> {
    set id | id in LeadIds(d)
  }

  lemma LeadIdsDistinct(d: Delivery)
    ensures DistinctKeys(SELF, LeadIds(d))
  {
    PutAllKeepsDistinct(SELF, [], IdsOf(Items(d.add)) + IdsOf(Items(d.update)) + IdsOf(Items(d.status)));
  }

  /** One delivery: every id in it has been enqueued by it or within the last 600 seconds,
      nothing else is enqueued, and nothing that was enqueued in that time is again. */
  lemma DeliveryCovered(eventId: int -> string, s: State, d: Delivery, before: int, now: int)
    requires Injective(eventId) && Sound(eventId, s, before) && before <= now
    ensures var (s', accepted) := ReceiveStep(eventId, s, d, now);
      && Sound(eventId, s', now)
      && s.queue <= s'.queue && accepted == |s'.queue| - |s.queue|
      && (forall id :: id in IdSet(d) ==> EnqueuedWithin(s'.queue, id, now))
      && (forall i :: |s.queue| <= i < |s'.queue| ==>
            s'.queue[i].at == now && s'.queue[i].lead in IdSet(d) && !EnqueuedWithin(s.queue, s'.queue[i].lead, now))
  {
    var ids := LeadIds(d);
    LeadIdsDistinct(d);
    ReceiveIdsEffect(eventId, s, ids, before, now);
    var novel := Fresh(s.queue, ids, now);
    forall id | id in ids ensures EnqueuedWithin(ReceiveStep(eventId, s, d, now).0.queue, id, now) {
      FreshAreIds(s.queue, ids, now, id);
      NewJobsDecide(s.queue, novel, id, now);
    }
    forall i | 0 <= i < |novel| ensures novel[i] in ids && !EnqueuedWithin(s.queue, novel[i], now) {
      FreshAreIds(s.queue, ids, now, novel[i]);
    }
  }

  /** The ids among these that were not enqueued within the window. */
  ghost function Novel(queue: seq<Job>, ids: set<int>, now: int): set<int> {
    set id | id in ids && !EnqueuedWithin(queue, id, now)
  }

  ghost function SetOf(ids: seq<int>): set<int> {
    set id | id in ids
  }

  lemma {:induction false} FreshCount(queue: seq<Job>, ids: seq<int>, now: int)
    requires DistinctKeys(SELF, ids)
    ensures |Fresh(queue, ids, now)| == |Novel(queue, SetOf(ids), now)|
  {
    if ids == [] {
      assert Novel(queue, SetOf(ids), now) == {};
    } else {
      var front, last := ids[..|ids| - 1], ids[|ids| - 1];
      FreshCount(queue, front, now);
      assert ids == front + [last] && last !in front;
      NovelWithOneMore(queue, SetOf(front), last, now);
      assert SetOf(ids) == SetOf(front) + {last};
    }
  }

  lemma NovelWithOneMore(queue: seq<Job>, ids: set<int>, last: int, now: int)
    requires last !in ids
    ensures |Novel(queue, ids + {last}, now)| == |Novel(queue, ids, now)| + if EnqueuedWithin(queue, last, now) then 0 else 1
  {
    var before := Novel(queue, ids, now);
    if EnqueuedWithin(queue, last, now) {
      assert Novel(queue, ids + {last}, now) == before;
    } else {
      assert Novel(queue, ids + {last}, now) == before + {last};
    }
  }

  /** `accepted` is the number of the delivery's distinct ids outside the window. So two
      deliveries with the same set of ids, whatever the shape of their sections, the order
      of the items and their repetition, are accepted alike. */
  lemma AcceptedDependsOnIdSet(eventId: int -> string, s: State, d: Delivery, d': Delivery, before: int, now: int)
    requires Injective(eventId) && Sound(eventId, s, before) && before <= now && IdSet(d) == IdSet(d')
    ensures ReceiveStep(eventId, s, d, now).1 == |Novel(s.queue, IdSet(d), now)|
    ensures ReceiveStep(eventId, s, d, now).1 == ReceiveStep(eventId, s, d', now).1
  {
    AcceptedCountsNovel(eventId, s, d, before, now);
    AcceptedCountsNovel(eventId, s, d', before, now);
  }

  lemma AcceptedCountsNovel(eventId: int -> string, s: State, d: Delivery, before: int, now: int)
    requires Injective(eventId) && Sound(eventId, s, before) && before <= now
    ensures ReceiveStep(eventId, s, d, now).1 == |Novel(s.queue, IdSet(d), now)|
  {
    LeadIdsDistinct(d);
    ReceiveIdsEffect(eventId, s, LeadIds(d), before, now);
    FreshCount(s.queue, LeadIds(d), now);
    assert IdSet(d) == SetOf(LeadIds(d));
  }

  lemma {:induction false} IdsOfMember(items: seq<Item>, id: int)
    ensures id in IdsOf(items) <==> id > 0 && Entity(Finite(id as real)) in items
  {
    if items == [] {
    } else {
      var front, last := items[..|items| - 1], items[|items| - 1];
      IdsOfMember(front, id);
      assert items == front + [last];
    }
  }

  /** The set of ids is read off the sections item by item: shape and order are immaterial. */
  lemma IdSetOfSections(d: Delivery, id: int)
    ensures id in IdSet(d) <==>
      (id > 0 && exists section :: section in [d.add, d.update, d.status] && Entity(Finite(id as real)) in Items(section))
  {
    var all := IdsOf(Items(d.add)) + IdsOf(Items(d.update)) + IdsOf(Items(d.status));
    GetPutAll(SELF, [], all, id);
    GetNone(SELF, LeadIds(d), id);
    LastNone(all, id);
    assert [d.add, d.update, d.status][0] == d.add && [d.add, d.update, d.status][1] == d.update
        && [d.add, d.update, d.status][2] == d.status;
    IdsOfMember(Items(d.add), id);
    IdsOfMember(Items(d.update), id);
    IdsOfMember(Items(d.status), id);
  }

  lemma {:induction false} LastNone(vs: seq<int>, id: int)
    ensures Last(SELF, vs, id).Some? <==> id in vs
  {
    if vs == [] {
    } else {
      LastNone(vs[..|vs| - 1], id);
      assert vs == vs[..|vs| - 1] + [vs[|vs| - 1]];
    }
  }

  function ReceiveAll(eventId: int -> string, s: State, deliveries: seq<(Delivery, int)>): State
    decreases deliveries
  {
    if deliveries == [] then s
    else ReceiveAll(eventId, ReceiveStep(eventId, s, deliveries[0].0, deliveries[0].1).0, deliveries[1..])
  }

  predicate Chronological(deliveries: seq<(Delivery, int)>, from: int) {
    (forall i :: 0 <= i < |deliveries| ==> from <= deliveries[i].1) &&
    (forall i, j :: 0 <= i < j < |deliveries| ==> deliveries[i].1 <= deliveries[j].1)
  }

  function LastTime(deliveries: seq<(Delivery, int)>, from: int): int {
    if deliveries == [] then from else deliveries[|deliveries| - 1].1
  }

  lemma SoundSpacesQueue(eventId: int -> string, s: State, now: int)
    requires Sound(eventId, s, now)
    ensures forall i, j :: 0 <= i < j < |s.queue| && s.queue[i].lead == s.queue[j].lead
              ==> s.queue[j].at - s.queue[i].at >= TTL_MS
  {
    forall i, j | 0 <= i < j < |s.queue| && s.queue[i].lead == s.queue[j].lead
      ensures s.queue[j].at - s.queue[i].at >= TTL_MS
    {
      assert Grants(eventId, s.queue)[i].key == Grants(eventId, s.queue)[j].key;
    }
  }

  lemma StepKeepsSound(eventId: int -> string, s: State, d: Delivery, before: int, now: int)
    requires Injective(eventId) && Sound(eventId, s, before) && before <= now
    ensures Sound(eventId, ReceiveStep(eventId, s, d, now).0, now)
  {
    LeadIdsDistinct(d);
    ReceiveIdsEffect(eventId, s, LeadIds(d), before, now);
  }

  lemma LaterDeliveries(deliveries: seq<(Delivery, int)>, from: int)
    requires deliveries != [] && Chronological(deliveries, from)
    ensures from <= deliveries[0].1 && Chronological(deliveries[1..], deliveries[0].1)
    ensures LastTime(deliveries[1..], deliveries[0].1) == LastTime(deliveries, from)
  {
  }

  lemma {:induction false} RunKeepsSound(eventId: int -> string, s: State, deliveries: seq<(Delivery, int)>, from: int)
    requires Injective(eventId) && Sound(eventId, s, from) && Chronological(deliveries, from)
    ensures Sound(eventId, ReceiveAll(eventId, s, deliveries), LastTime(deliveries, from))
    decreases deliveries
  {
    if deliveries == [] {
    } else {
      var first, rest := deliveries[0], deliveries[1..];
      StepKeepsSound(eventId, s, first.0, from, first.1);
      LaterDeliveries(deliveries, from);
      RunKeepsSound(eventId, ReceiveStep(eventId, s, first.0, first.1).0, rest, first.1);
    }
  }

  /** Over every run of deliveries no lead is enqueued twice within 600 seconds. */
  lemma NoRepeatWithinWindow(eventId: int -> string, deliveries: seq<(Delivery, int)>, from: int)
    requires Injective(eventId) && Chronological(deliveries, from)
    ensures var queue := ReceiveAll(eventId, State(map[], []), deliveries).queue;
      forall i, j :: 0 <= i < j < |queue| && queue[i].lead == queue[j].lead ==> queue[j].at - queue[i].at >= 600_000
  {
    RunKeepsSound(eventId, State(map[], []), deliveries, from);
    SoundSpacesQueue(eventId, ReceiveAll(eventId, State(map[], []), deliveries), LastTime(deliveries, from));
  }

  // ---------------------------------------------------------------- the controller

  class WebhookController {
    const redis: Redis<string>
    const eventId: int -> string
    var queue: seq<Job>

    function Snapshot(): State
      reads this, redis
    {
      State(redis.expires, queue)
    }

    constructor (eventId: int -> string)
      ensures fresh(redis) && this.eventId == eventId && Snapshot() == State(map[], [])
    {
      this.eventId := eventId;
      redis := new Redis<string>();
      queue := [];
    }

    method MarkIfNew(event: string, now: int) returns (isNew: bool)
      modifies redis
      ensures (redis.expires, isNew) == SetIfAbsent(old(redis.expires), event, TTL_MS, now)
    {
      isNew := redis.SetNx(event, TTL_MS, now);
    }

    method EnqueueIfNew(id: int, now: int) returns (isNew: bool)
      modifies this`queue, redis
      ensures (Snapshot(), isNew) == MarkOne(eventId, old(Snapshot()), id, now)
    {
      isNew := MarkIfNew(eventId(id), now);
      if isNew { queue := queue + [Job(id, now)]; }
    }

    method Receive(d: Delivery, now: int) returns (accepted: nat)
      modifies this`queue, redis
      ensures (Snapshot(), accepted) == ReceiveStep(eventId, old(Snapshot()), d, now)
    {
      var added := ExtractIds(d.add);
      var updated := ExtractIds(d.update);
      var moved := ExtractIds(d.status);
      var leadIds := PutAll(SELF, [], added + updated + moved);
      accepted := 0;
      for i := 0 to |leadIds|
        invariant (Snapshot(), accepted) == ReceiveIds(eventId, old(Snapshot()), leadIds[..i], now)
      {
        assert leadIds[..i + 1][..i] == leadIds[..i];
        var isNew := EnqueueIfNew(leadIds[i], now);
        if isNew { accepted := accepted + 1; }
      }
      assert leadIds[..|leadIds|] == leadIds;
    }
  }
}
