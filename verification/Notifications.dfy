/** NotificationsService.send: de-duplicate, schedule around quiet hours, enqueue. The Redis
    key and the job id are kept as the parts they are made of; the last section proves that
    the strings the source builds from them are equal exactly when the parts are. */
module Notifications {
  import opened TtlStore
  import opened QuietHours

  datatype Event = StageChanged | ProgressChanged | OrderReady | ChatReply

  /** CHANNEL_MATRIX[event].critical */
  predicate Critical(e: Event) {
    e == OrderReady
  }

  const TTL_MS := 60_000

  datatype Key = Key(userId: string, event: Event, orderId: string)

  datatype Job = Job(key: Key, at: nat, delay: int)

  datatype Call = Call(key: Key, at: nat)

  datatype State = State(expires: map<Key, int>, jobs: seq<Job>)

  function Delay(e: Event, now: int): int {
    if !Critical(e) && IsQuietHour(now) then DeferUntilMorning(now) else 0
  }

  function SendStep(s: State, c: Call): (State, bool) {
    var (expires', isNew) := SetIfAbsent(s.expires, c.key, TTL_MS, c.at);
    if !isNew then (s.(expires := expires'), false)
    else (State(expires', s.jobs + [Job(c.key, c.at, Delay(c.key.event, c.at))]), true)
  }

  function SendAll(s: State, calls: seq<Call>): State
    decreases calls
  {
    if calls == [] then s else SendAll(SendStep(s, calls[0]).0, calls[1..])
  }

  // -------------------------------------------------------------------- invariant

  /** Calls come in the order of the clock. */
  predicate Chronological(calls: seq<Call>, from: int) {
    (forall i :: 0 <= i < |calls| ==> from <= calls[i].at) &&
    (forall i, j :: 0 <= i < j < |calls| ==> calls[i].at <= calls[j].at)
  }

  function LastTime(calls: seq<Call>, from: int): int {
    if calls == [] then from else calls[|calls| - 1].at
  }

  function Grants(jobs: seq<Job>): (r: seq<Grant<Key>>)
    ensures |r| == |jobs|
    ensures forall i :: 0 <= i < |jobs| ==> r[i] == Grant(jobs[i].key, jobs[i].at)
  {
    if jobs == [] then []
    else Grants(jobs[..|jobs| - 1]) + [Grant(jobs[|jobs| - 1].key, jobs[|jobs| - 1].at)]
  }

  predicate WellScheduled(j: Job) {
    && 0 <= j.delay <= 11 * MS_PER_HOUR
    && (Critical(j.key.event) ==> j.delay == 0)
    && (!Critical(j.key.event) ==> !IsQuietHour(j.at + j.delay))
    && (forall u :: j.at <= u < j.at + j.delay ==> IsQuietHour(u))
  }

  ghost predicate Sound(s: State, now: int) {
    && Reflects(s.expires, Grants(s.jobs), TTL_MS, now)
    && forall i :: 0 <= i < |s.jobs| ==> WellScheduled(s.jobs[i])
  }

  /** A job with this call's key was enqueued less than 60 seconds before the call. */
  predicate RecentlyEnqueued(jobs: seq<Job>, c: Call) {
    exists i :: 0 <= i < |jobs| && jobs[i].key == c.key && c.at - 60_000 < jobs[i].at <= c.at
  }

  lemma GrantsAppend(jobs: seq<Job>, j: Job)
    ensures Grants(jobs + [j]) == Grants(jobs) + [Grant(j.key, j.at)]
  {
    assert (jobs + [j])[..|jobs|] == jobs;
  }

  lemma RecentIsGranted(jobs: seq<Job>, c: Call)
    ensures RecentlyEnqueued(jobs, c) <==> GrantedWithin(Grants(jobs), c.key, TTL_MS, c.at)
  {
    if RecentlyEnqueued(jobs, c) {
      var i :| 0 <= i < |jobs| && jobs[i].key == c.key && c.at - TTL_MS < jobs[i].at <= c.at;
      assert Grants(jobs)[i] in Grants(jobs);
    }
  }

  lemma DelayWellScheduled(key: Key, at: nat)
    ensures WellScheduled(Job(key, at, Delay(key.event, at)))
  {
    if IsQuietHour(at) { LeastDelayOutOfQuiet(at); }
  }

  /** A send is skipped exactly when a job of its key is less than 60 seconds old. */
  lemma SendKeepsSound(s: State, c: Call, before: int)
    requires Sound(s, before) && before <= c.at
    ensures var (s', sent) := SendStep(s, c);
      Sound(s', c.at) && (sent <==> !RecentlyEnqueued(s.jobs, c))
  {
    AttemptReflects(s.expires, Grants(s.jobs), TTL_MS, before, c.key, c.at);
    GrantsAppend(s.jobs, Job(c.key, c.at, Delay(c.key.event, c.at)));
    RecentIsGranted(s.jobs, c);
    DelayWellScheduled(c.key, c.at);
  }

  lemma {:induction false} RunKeepsSound(s: State, calls: seq<Call>, from: int)
    requires Sound(s, from) && Chronological(calls, from)
    ensures Sound(SendAll(s, calls), LastTime(calls, from))
    decreases calls
  {
    if calls == [] {
    } else {
      SendKeepsSound(s, calls[0], from);
      RunKeepsSound(SendStep(s, calls[0]).0, calls[1..], calls[0].at);
    }
  }

  // ------------------------------------------------------------------ main results

  const EMPTY := State(map[], [])

  /** In every run from an empty service: jobs of one key are at least 60 seconds apart, a
      job that is not critical falls due at the first instant outside quiet hours, within
      eleven hours, and a critical one is due at once. */
  lemma JobsSpacedAndWellScheduled(calls: seq<Call>)
    requires Chronological(calls, 0)
    ensures var jobs := SendAll(EMPTY, calls).jobs;
      && (forall i, j :: 0 <= i < j < |jobs| && jobs[i].key == jobs[j].key ==> jobs[j].at - jobs[i].at >= 60_000)
      && (forall i :: 0 <= i < |jobs| ==> WellScheduled(jobs[i]))
  {
    RunKeepsSound(EMPTY, calls, 0);
    var jobs := SendAll(EMPTY, calls).jobs;
    forall i, j | 0 <= i < j < |jobs| && jobs[i].key == jobs[j].key
      ensures jobs[j].at - jobs[i].at >= TTL_MS
    {
      assert Grants(jobs)[i].key == Grants(jobs)[j].key;
    }
  }

  /** After every run, a further send is skipped exactly when a job of its key was enqueued
      less than 60 seconds earlier. */
  lemma SkippedIffRecent(calls: seq<Call>, c: Call)
    requires Chronological(calls, 0) && LastTime(calls, 0) <= c.at
    ensures var s := SendAll(EMPTY, calls); SendStep(s, c).1 <==> !RecentlyEnqueued(s.jobs, c)
  {
    RunKeepsSound(EMPTY, calls, 0);
    SendKeepsSound(SendAll(EMPTY, calls), c, LastTime(calls, 0));
  }

  lemma {:induction false} JobsComeFromCalls(s: State, calls: seq<Call>)
    requires forall i :: 0 <= i < |s.jobs| ==> PlainIds(s.jobs[i].key)
    requires forall i :: 0 <= i < |calls| ==> PlainIds(calls[i].key)
    ensures var jobs := SendAll(s, calls).jobs; forall i :: 0 <= i < |jobs| ==> PlainIds(jobs[i].key)
    decreases calls
  {
    if calls == [] {
    } else {
      var s1 := SendStep(s, calls[0]).0;
      assert PlainIds(calls[0].key);
      JobsComeFromCalls(s1, calls[1..]);
      assert SendAll(s, calls) == SendAll(s1, calls[1..]);
    }
  }

  /** In every run, the job id strings are pairwise distinct, so the queue drops no job. */
  lemma JobIdsDistinct(calls: seq<Call>, i: nat, j: nat)
    requires Chronological(calls, 0) && forall k :: 0 <= k < |calls| ==> PlainIds(calls[k].key)
    ensures var jobs := SendAll(EMPTY, calls).jobs;
      i < j < |jobs| ==> IdString(jobs[i].key, jobs[i].at) != IdString(jobs[j].key, jobs[j].at)
  {
    var jobs := SendAll(EMPTY, calls).jobs;
    JobsSpacedAndWellScheduled(calls);
    JobsComeFromCalls(EMPTY, calls);
    if i < j < |jobs| {
      IdStringInjective(jobs[i].key, jobs[i].at, jobs[j].key, jobs[j].at);
    }
  }

  // -------------------------------------------------------------- the strings built

  function EventName(e: Event): string {
    match e
    case StageChanged => "order.stage.changed"
    case ProgressChanged => "order.progress.changed"
    case OrderReady => "order.ready"
    case ChatReply => "chat.reply.received"
  }

  function Decimal(n: nat): string {
    if n < 10 then [('0' as int + n) as char] else Decimal(n / 10) + [('0' as int + n % 10) as char]
  }

  function Joined(a: string, sep: char, rest: string): string {
    a + [sep] + rest
  }

  /** `${userId}:${event}:${entityId}`, which the source prefixes with `notif:dedup:`. */
  function KeyString(k: Key): string {
    Joined(k.userId, ':', Joined(EventName(k.event), ':', k.orderId))
  }

  /** `${userId}_${event}_${orderId}_${Date.now()}` */
  function IdString(k: Key, at: nat): string {
    Joined(k.userId, '_', Joined(EventName(k.event), '_', Joined(k.orderId, '_', Decimal(at))))
  }

  predicate Lacks(s: string, c: char) {
    forall i :: 0 <= i < |s| ==> s[i] != c
  }

  /** User and order ids are UUIDs: neither an underscore nor a colon occurs in them. */
  predicate PlainIds(k: Key) {
    Lacks(k.userId, '_') && Lacks(k.orderId, '_') && Lacks(k.userId, ':') && Lacks(k.orderId, ':')
  }

  lemma SeparatorFirst(a: string, sep: char, rest: string)
    requires Lacks(a, sep)
    ensures Joined(a, sep, rest)[|a|] == sep && Lacks(Joined(a, sep, rest)[..|a|], sep)
    ensures Joined(a, sep, rest)[..|a|] == a && Joined(a, sep, rest)[|a| + 1..] == rest
  {
  }

  /** Where the separator stands is determined by the string. */
  lemma SameIndex(l: string, i: nat, j: nat, sep: char)
    requires i < |l| && j < |l| && l[i] == l[j] == sep && Lacks(l[..i], sep) && Lacks(l[..j], sep)
    ensures i == j
  {
    assert forall k :: 0 <= k < i ==> l[k] == l[..i][k];
    assert forall k :: 0 <= k < j ==> l[k] == l[..j][k];
  }

  /** Splitting at the first separator is unambiguous. */
  lemma FirstSeparator(a: string, x: string, b: string, y: string, sep: char)
    requires Lacks(a, sep) && Lacks(b, sep) && Joined(a, sep, x) == Joined(b, sep, y)
    ensures a == b && x == y
  {
    SeparatorFirst(a, sep, x);
    SeparatorFirst(b, sep, y);
    SameIndex(Joined(a, sep, x), |a|, |b|, sep);
  }

  lemma EventNamesDiffer(e: Event, f: Event)
    ensures EventName(e) == EventName(f) ==> e == f
  {
    assert EventName(e) == EventName(f) ==> |EventName(e)| == |EventName(f)|;
    assert EventName(StageChanged)[0] == 'o' && EventName(ChatReply)[0] == 'c';
  }

  lemma EventNamePlain(e: Event)
    ensures Lacks(EventName(e), '_') && Lacks(EventName(e), ':')
  {
  }

  function Value(s: string): int {
    if s == "" then 0 else Value(s[..|s| - 1]) * 10 + (s[|s| - 1] as int - '0' as int)
  }

  lemma {:induction false} DecimalValue(n: nat)
    ensures Value(Decimal(n)) == n
  {
    if n < 10 {
      assert Decimal(n)[..0] == "";
    } else {
      DecimalValue(n / 10);
      assert Decimal(n)[..|Decimal(n)| - 1] == Decimal(n / 10);
    }
  }

  lemma ThreeParts(a: string, e: string, o: string, b: string, f: string, p: string, sep: char)
    requires Lacks(a, sep) && Lacks(b, sep) && Lacks(e, sep) && Lacks(f, sep)
    requires Joined(a, sep, Joined(e, sep, o)) == Joined(b, sep, Joined(f, sep, p))
    ensures a == b && e == f && o == p
  {
    FirstSeparator(a, Joined(e, sep, o), b, Joined(f, sep, p), sep);
    FirstSeparator(e, o, f, p, sep);
  }

  /** Job id strings are equal exactly when user, event, order and instant are. */
  lemma IdStringInjective(k: Key, at: nat, l: Key, at': nat)
    requires PlainIds(k) && PlainIds(l)
    ensures IdString(k, at) == IdString(l, at') <==> k == l && at == at'
  {
    if IdString(k, at) == IdString(l, at') {
      EventNamePlain(k.event);
      EventNamePlain(l.event);
      var x, y := Joined(k.orderId, '_', Decimal(at)), Joined(l.orderId, '_', Decimal(at'));
      ThreeParts(k.userId, EventName(k.event), x, l.userId, EventName(l.event), y, '_');
      EventNamesDiffer(k.event, l.event);
      FirstSeparator(k.orderId, Decimal(at), l.orderId, Decimal(at'), '_');
      DecimalValue(at);
      DecimalValue(at');
    }
  }

  /** De-duplication key strings are equal exactly when user, event and order are. */
  lemma KeyStringInjective(k: Key, l: Key)
    requires PlainIds(k) && PlainIds(l)
    ensures KeyString(k) == KeyString(l) <==> k == l
  {
    if KeyString(k) == KeyString(l) {
      EventNamePlain(k.event);
      EventNamePlain(l.event);
      ThreeParts(k.userId, EventName(k.event), k.orderId, l.userId, EventName(l.event), l.orderId, ':');
      EventNamesDiffer(k.event, l.event);
    }
  }

  // ------------------------------------------------------------------- the service

  class NotificationService {
    const redis: Redis<Key>
    var jobs: seq<Job>

    function Snapshot(): State
      reads this, redis
    {
      State(redis.expires, jobs)
    }

    constructor ()
      ensures fresh(redis) && Snapshot() == EMPTY
    {
      redis := new Redis<Key>();
      jobs := [];
    }

    method ShouldSend(key: Key, now: nat) returns (isNew: bool)
      modifies redis
      ensures (redis.expires, isNew) == SetIfAbsent(old(redis.expires), key, TTL_MS, now)
    {
      isNew := redis.SetNx(key, TTL_MS, now);
    }

    method Send(key: Key, now: nat) returns (sent: bool)
      modifies this`jobs, redis
      ensures (Snapshot(), sent) == SendStep(old(Snapshot()), Call(key, now))
    {
      var isNew := ShouldSend(key, now);
      if !isNew { return false; }
      var delay := 0;
      if !Critical(key.event) && IsQuietHour(now) {
        delay := ComputeDelay(now);
      }
      jobs := jobs + [Job(key, now, delay)];
      sent := true;
    }
  }
}
