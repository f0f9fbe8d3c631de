/** The failsafe poller (amocrm-failsafe.service.ts) over the mock CRM client: a window that
    starts at the previous run, a list of the leads edited since then, and a loop that syncs
    them one by one while managers go on editing. Instants are milliseconds; the CRM keeps
    whole seconds. */
module Failsafe {
  import opened Wrappers
  import opened InsertionMap

  /** A lead as far as the poller sees it. */
  datatype Row = Row(id: int, updatedAt: int)

  datatype Event = Edited(lead: int, at: int) | Attempted(lead: int, ok: bool)

  /** `run` holds the leads the current run has still to sync; `started` is the length of
      the log when the last run took its list. */
  datatype World = World(rows: seq<Row>, now: int, lastSync: int, run: Option<seq<int>>, log: seq<Event>, started: nat)

  datatype Step = Edit(lead: int) | Wait(ms: nat) | Start(listed: bool) | SyncNext(ok: bool)

  const ROW_ID: Row -> int := (r: Row) => r.id

  const COLD_START_WINDOW := 30 * 60_000

  /** listLeadsUpdatedSince: updated_at >= floor(since / 1000). */
  function ListSince(rows: seq<Row>, since: int): seq<int> {
    if rows == [] then []
    else (if rows[0].updatedAt >= since / 1000 then [rows[0].id] else []) + ListSince(rows[1..], since)
  }

  function NonEmpty(leads: seq<int>): Option<seq<int>> {
    if leads == [] then None else Some(leads)
  }

  /** One step. A run starts only when no other is under way; when its list call fails, the
      window has moved all the same. An attempt to sync may fail; the loop goes on. */
  function Next(w: World, step: Step): World {
    match step
    case Edit(lead) =>
      w.(rows := Put(ROW_ID, w.rows, Row(lead, w.now / 1000)), log := w.log + [Edited(lead, w.now)])
    case Wait(ms) => w.(now := w.now + ms)
    case Start(listed) =>
      if w.run.Some? then w
      else
        var leads := if listed then ListSince(w.rows, w.lastSync) else [];
        w.(lastSync := w.now, run := NonEmpty(leads), started := |w.log|)
    case SyncNext(ok) =>
      if w.run.None? || w.run.value == [] then w
      else w.(run := NonEmpty(w.run.value[1..]), log := w.log + [Attempted(w.run.value[0], ok)])
  }

  function Execute(w: World, steps: seq<Step>): World
    decreases steps
  {
    if steps == [] then w else Execute(Next(w, steps[0]), steps[1..])
  }

  // ------------------------------------------------------------------- coverage

  /** After entry e of the log there is an attempt to sync its lead. */
  predicate Followed(log: seq<Event>, e: nat, lead: int) {
    exists k :: e < k < |log| && log[k].Attempted? && log[k].lead == lead
  }

  predicate InRun(w: World, lead: int) {
    w.run.Some? && lead in w.run.value
  }

  /** The CRM's second of a lead is never before its last edit. */
  predicate Stamped(rows: seq<Row>, lead: int, at: int) {
    Get(ROW_ID, rows, lead).Some? && Get(ROW_ID, rows, lead).value.updatedAt >= at / 1000
  }

  /** Every edit since the cutoff has been followed by an attempt, or is still listed in the
      current run, or came after that run took its list and so within the next window. */
  ghost predicate Covered(w: World, cutoff: int) {
    && w.started <= |w.log| && w.lastSync <= w.now && w.run != Some([])
    && forall e :: 0 <= e < |w.log| && w.log[e].Edited? ==>
         && w.log[e].at <= w.now
         && Stamped(w.rows, w.log[e].lead, w.log[e].at)
         && (w.log[e].at >= cutoff ==>
               || Followed(w.log, e, w.log[e].lead)
               || InRun(w, w.log[e].lead)
               || (e >= w.started && w.log[e].at >= w.lastSync))
  }

  lemma {:induction false} ListedIfRecent(rows: seq<Row>, since: int, lead: int)
    requires Get(ROW_ID, rows, lead).Some? && Get(ROW_ID, rows, lead).value.updatedAt >= since / 1000
    ensures lead in ListSince(rows, since)
  {
    if rows[0].id != lead {
      ListedIfRecent(rows[1..], since, lead);
    }
  }

  lemma FollowedStays(log: seq<Event>, event: Event, e: nat, lead: int)
    ensures Followed(log, e, lead) ==> Followed(log + [event], e, lead)
  {
    if Followed(log, e, lead) {
      var k :| e < k < |log| && log[k].Attempted? && log[k].lead == lead;
      assert (log + [event])[k] == log[k];
    }
  }

  lemma EditKeepsCovered(w: World, lead: int, cutoff: int)
    requires Covered(w, cutoff)
    ensures Covered(Next(w, Edit(lead)), cutoff)
  {
    var w' := Next(w, Edit(lead));
    forall e | 0 <= e < |w'.log| && w'.log[e].Edited?
      ensures Stamped(w'.rows, w'.log[e].lead, w'.log[e].at)
      ensures e < |w.log| && Followed(w.log, e, w.log[e].lead) ==> Followed(w'.log, e, w'.log[e].lead)
    {
      GetPut(ROW_ID, w.rows, Row(lead, w.now / 1000), w'.log[e].lead);
      if e < |w.log| {
        FollowedStays(w.log, Edited(lead, w.now), e, w.log[e].lead);
      }
    }
  }

  lemma StartKeepsCovered(w: World, cutoff: int)
    requires Covered(w, cutoff)
    ensures Covered(Next(w, Start(true)), cutoff)
  {
    if w.run.None? {
      forall e | 0 <= e < |w.log| && w.log[e].Edited? && w.log[e].at >= w.lastSync
        ensures w.log[e].lead in ListSince(w.rows, w.lastSync)
      {
        ListedIfRecent(w.rows, w.lastSync, w.log[e].lead);
      }
    }
  }

  lemma SyncNextKeepsCovered(w: World, ok: bool, cutoff: int)
    requires Covered(w, cutoff)
    ensures Covered(Next(w, SyncNext(ok)), cutoff)
  {
    if w.run.Some? {
      var w' := Next(w, SyncNext(ok));
      var head := w.run.value[0];
      forall e | 0 <= e < |w.log| && w.log[e].Edited?
        ensures Followed(w.log, e, w.log[e].lead) ==> Followed(w'.log, e, w.log[e].lead)
        ensures w.log[e].lead == head ==> Followed(w'.log, e, head)
      {
        FollowedStays(w.log, Attempted(head, ok), e, w.log[e].lead);
        assert w'.log[|w.log|] == Attempted(head, ok);
      }
    }
  }

  predicate ListsSucceed(steps: seq<Step>) {
    forall i :: 0 <= i < |steps| && steps[i].Start? ==> steps[i].listed
  }

  lemma {:induction false} RunKeepsCovered(w: World, steps: seq<Step>, cutoff: int)
    requires Covered(w, cutoff) && ListsSucceed(steps)
    ensures Covered(Execute(w, steps), cutoff)
    decreases steps
  {
    if steps == [] {
    } else {
      match steps[0] {
        case Edit(lead) => EditKeepsCovered(w, lead, cutoff);
        case Wait(ms) =>
        case Start(listed) => StartKeepsCovered(w, cutoff);
        case SyncNext(ok) => SyncNextKeepsCovered(w, ok, cutoff);
      }
      RunKeepsCovered(Next(w, steps[0]), steps[1..], cutoff);
    }
  }

  /** The service as it boots: edits of the last half hour may already be in the log. */
  ghost predicate ColdStart(w: World) {
    && w.run.None? && w.started == 0 && w.lastSync == w.now - COLD_START_WINDOW
    && forall e :: 0 <= e < |w.log| && w.log[e].Edited? ==>
         w.log[e].at <= w.now && Stamped(w.rows, w.log[e].lead, w.log[e].at)
  }

  /** However edits interleave with the loops: whenever no run is under way, every edit made
      between the cold-start cutoff and the moment the last run took its list has been
      followed by an attempt to sync that lead, although the CRM keeps only seconds. */
  lemma EditsAreFollowed(w: World, steps: seq<Step>, e: nat)
    requires ColdStart(w) && ListsSucceed(steps)
    requires var w' := Execute(w, steps);
      && w'.run.None? && e < w'.started && e < |w'.log| && w'.log[e].Edited?
      && w'.log[e].at >= w.now - 30 * 60_000
    ensures var w' := Execute(w, steps); Followed(w'.log, e, w'.log[e].lead)
  {
    RunKeepsCovered(w, steps, w.now - COLD_START_WINDOW);
  }

  // ----------------------------------------------- when a list call or a sync fails

  predicate NoEditOf(steps: seq<Step>, lead: int) {
    forall i :: 0 <= i < |steps| ==> steps[i] != Edit(lead)
  }

  predicate NoStart(steps: seq<Step>) {
    forall i :: 0 <= i < |steps| ==> !steps[i].Start?
  }

  /** The CRM's second of the lead is not before this instant's. */
  predicate EditedSince(rows: seq<Row>, lead: int, since: int) {
    Get(ROW_ID, rows, lead).Some? && Get(ROW_ID, rows, lead).value.updatedAt >= since / 1000
  }

  predicate OutsideWindow(w: World, lead: int) {
    w.lastSync <= w.now && !InRun(w, lead) && !EditedSince(w.rows, lead, w.lastSync) && DistinctKeys(ROW_ID, w.rows)
  }

  lemma {:induction false} NotListedIfOld(rows: seq<Row>, since: int, lead: int)
    requires DistinctKeys(ROW_ID, rows) && !EditedSince(rows, lead, since)
    ensures lead !in ListSince(rows, since)
  {
    if rows == [] {
    } else {
      if rows[0].id == lead {
        GetNone(ROW_ID, rows[1..], lead);
      }
      NotListedIfOld(rows[1..], since, lead);
    }
  }

  lemma StepStaysOutside(w: World, step: Step, lead: int)
    requires OutsideWindow(w, lead) && step != Edit(lead)
    ensures var w' := Next(w, step);
      && OutsideWindow(w', lead)
      && |w.log| <= |w'.log|
      && forall k :: |w.log| <= k < |w'.log| ==> !(w'.log[k].Attempted? && w'.log[k].lead == lead)
  {
    match step
    case Edit(other) =>
      GetPut(ROW_ID, w.rows, Row(other, w.now / 1000), lead);
      PutKeepsDistinct(ROW_ID, w.rows, Row(other, w.now / 1000));
    case Start(listed) => NotListedIfOld(w.rows, w.lastSync, lead);
    case SyncNext(ok) =>
    case Wait(ms) =>
  }

  /** Whatever is outside the window stays outside: the lead is never attempted again unless
      someone edits it again. */
  lemma {:induction false} OutsideIsNeverAttempted(w: World, lead: int, steps: seq<Step>)
    requires OutsideWindow(w, lead) && NoEditOf(steps, lead)
    ensures var w' := Execute(w, steps);
      && |w.log| <= |w'.log|
      && forall k :: |w.log| <= k < |w'.log| ==> !(w'.log[k].Attempted? && w'.log[k].lead == lead)
    decreases steps
  {
    if steps == [] {
    } else {
      assert steps[0] != Edit(lead);
      StepStaysOutside(w, steps[0], lead);
      OutsideIsNeverAttempted(Next(w, steps[0]), lead, steps[1..]);
      LogOnlyGrows(Next(w, steps[0]), steps[1..]);
    }
  }

  lemma {:induction false} LogOnlyGrows(w: World, steps: seq<Step>)
    ensures w.log <= Execute(w, steps).log
    decreases steps
  {
    if steps == [] {
    } else {
      LogOnlyGrows(Next(w, steps[0]), steps[1..]);
    }
  }

  /** While no run starts and nobody edits the lead, its row and the window stay. */
  lemma {:induction false} BetweenRuns(w: World, lead: int, steps: seq<Step>)
    requires NoStart(steps) && NoEditOf(steps, lead) && DistinctKeys(ROW_ID, w.rows)
    ensures var w' := Execute(w, steps);
      && w'.lastSync == w.lastSync && DistinctKeys(ROW_ID, w'.rows)
      && Get(ROW_ID, w'.rows, lead) == Get(ROW_ID, w.rows, lead)
    decreases steps
  {
    if steps == [] {
    } else {
      assert !steps[0].Start? && steps[0] != Edit(lead);
      if steps[0].Edit? {
        GetPut(ROW_ID, w.rows, Row(steps[0].lead, w.now / 1000), lead);
        PutKeepsDistinct(ROW_ID, w.rows, Row(steps[0].lead, w.now / 1000));
      }
      BetweenRuns(Next(w, steps[0]), lead, steps[1..]);
    }
  }

  /** The next list holds a lead that is not edited meanwhile exactly when its second is not
      before the second of `lastSync`. */
  lemma NextListHasIff(w: World, lead: int, steps: seq<Step>)
    requires DistinctKeys(ROW_ID, w.rows) && NoStart(steps) && NoEditOf(steps, lead)
    requires Execute(w, steps).run.None?
    ensures InRun(Next(Execute(w, steps), Start(true)), lead) <==> EditedSince(w.rows, lead, w.lastSync)
  {
    var w' := Execute(w, steps);
    BetweenRuns(w, lead, steps);
    if EditedSince(w.rows, lead, w.lastSync) {
      ListedIfRecent(w'.rows, w'.lastSync, lead);
    } else {
      NotListedIfOld(w'.rows, w'.lastSync, lead);
    }
  }

  /** What a failing list call costs. The window has moved first, so a lead that nobody edits
      meanwhile is in the next list exactly when it was edited in the very second of the
      failing call or later; any other lead is never attempted again. */
  lemma FailedListLosesIff(w: World, lead: int, between: seq<Step>, rest: seq<Step>)
    requires w.run.None? && DistinctKeys(ROW_ID, w.rows)
    requires NoStart(between) && NoEditOf(between, lead) && NoEditOf(rest, lead)
    ensures var failed := Next(w, Start(false));
      && Execute(failed, between).run.None?
      && (InRun(Next(Execute(failed, between), Start(true)), lead) <==> EditedSince(w.rows, lead, w.now))
      && (!EditedSince(w.rows, lead, w.now) ==>
            forall k :: |w.log| <= k < |Execute(failed, rest).log| ==>
              !(Execute(failed, rest).log[k].Attempted? && Execute(failed, rest).log[k].lead == lead))
  {
    var failed := Next(w, Start(false));
    IdleStaysIdle(failed, between);
    NextListHasIff(failed, lead, between);
    if !EditedSince(w.rows, lead, w.now) {
      OutsideIsNeverAttempted(failed, lead, rest);
    }
  }

  lemma {:induction false} IdleStaysIdle(w: World, steps: seq<Step>)
    requires w.run.None? && NoStart(steps)
    ensures Execute(w, steps).run.None?
    decreases steps
  {
    if steps == [] {
    } else {
      assert !steps[0].Start?;
      IdleStaysIdle(Next(w, steps[0]), steps[1..]);
    }
  }

  // ------------------------------------------------- what every run keeps of the lists

  predicate DistinctList(leads: seq<int>) {
    forall i, j :: 0 <= i < j < |leads| ==> leads[i] != leads[j]
  }

  /** The CRM has one row for a lead, and the current run lists no lead twice. */
  ghost predicate Ready(w: World) {
    && DistinctKeys(ROW_ID, w.rows) && w.lastSync <= w.now
    && (w.run.Some? ==> w.run.value != [] && DistinctList(w.run.value))
  }

  lemma {:induction false} ListedOnce(rows: seq<Row>, since: int)
    requires DistinctKeys(ROW_ID, rows)
    ensures DistinctList(ListSince(rows, since))
  {
    if rows == [] {
    } else {
      ListedOnce(rows[1..], since);
      GetNone(ROW_ID, rows[1..], rows[0].id);
      ListedAreRows(rows[1..], since);
    }
  }

  lemma {:induction false} ListedAreRows(rows: seq<Row>, since: int)
    ensures forall lead :: lead in ListSince(rows, since) ==> Get(ROW_ID, rows, lead).Some?
  {
    if rows == [] {
    } else {
      ListedAreRows(rows[1..], since);
    }
  }

  lemma StepKeepsReady(w: World, step: Step)
    requires Ready(w)
    ensures Ready(Next(w, step))
  {
    match step
    case Edit(lead) => PutKeepsDistinct(ROW_ID, w.rows, Row(lead, w.now / 1000));
    case Start(listed) => ListedOnce(w.rows, w.lastSync);
    case SyncNext(ok) =>
    case Wait(ms) =>
  }

  lemma {:induction false} RunKeepsReady(w: World, steps: seq<Step>)
    requires Ready(w)
    ensures Ready(Execute(w, steps))
    decreases steps
  {
    if steps == [] {
    } else {
      StepKeepsReady(w, steps[0]);
      RunKeepsReady(Next(w, steps[0]), steps[1..]);
    }
  }

  /** What a failing sync costs, in every world that a run reaches: the loop only warns, so a
      lead that nobody edits meanwhile is tried again by the next run exactly when it was
      edited in the second in which the current run started or later; any other lead is never
      tried again. */
  lemma FailedSyncRetriedIff(w: World, between: seq<Step>, rest: seq<Step>)
    requires Ready(w) && w.run.Some?
    requires var lead := w.run.value[0]; NoStart(between) && NoEditOf(between, lead) && NoEditOf(rest, lead)
    requires Execute(Next(w, SyncNext(false)), between).run.None?
    ensures var lead, failed := w.run.value[0], Next(w, SyncNext(false));
      && (InRun(Next(Execute(failed, between), Start(true)), lead) <==> EditedSince(w.rows, lead, w.lastSync))
      && (!EditedSince(w.rows, lead, w.lastSync) ==>
            forall k :: |failed.log| <= k < |Execute(failed, rest).log| ==>
              !(Execute(failed, rest).log[k].Attempted? && Execute(failed, rest).log[k].lead == lead))
  {
    var lead, failed := w.run.value[0], Next(w, SyncNext(false));
    NextListHasIff(failed, lead, between);
    if !EditedSince(w.rows, lead, w.lastSync) {
      OutsideIsNeverAttempted(failed, lead, rest);
    }
  }

  /** The losing side is within reach of every cold start: an edit, two seconds, a failing list
      call, and the edit is never followed, however the poller goes on. */
  lemma FailedListLosesEdit(now: int, lead: int, rest: seq<Step>)
    requires NoEditOf(rest, lead)
    ensures var boot := World([], now, now - COLD_START_WINDOW, None, [], 0);
      var w := Next(Next(Next(boot, Edit(lead)), Wait(2000)), Start(false));
      && ColdStart(boot) && w.log == [Edited(lead, now)]
      && 0 < |Execute(w, rest).log| && Execute(w, rest).log[0] == Edited(lead, now)
      && !Followed(Execute(w, rest).log, 0, lead)
  {
    var boot := World([], now, now - COLD_START_WINDOW, None, [], 0);
    var edited := Next(Next(boot, Edit(lead)), Wait(2000));
    assert edited.rows == [Row(lead, now / 1000)] && Get(ROW_ID, edited.rows, lead) == Some(Row(lead, now / 1000));
    FailedListLosesIff(edited, lead, [], rest);
    LogOnlyGrows(Next(edited, Start(false)), rest);
  }

  /** A failing sync within reach of every cold start: an edit, two seconds, a run that lists
      the lead and fails to sync it. The edit has been attempted, but it is never synced:
      nothing attempts it again, however the poller goes on. */
  lemma FailedSyncLosesEdit(now: int, lead: int, rest: seq<Step>)
    requires NoEditOf(rest, lead)
    ensures var boot := World([], now, now - COLD_START_WINDOW, None, [], 0);
      var w := Next(Next(Next(Next(boot, Edit(lead)), Wait(2000)), Start(true)), SyncNext(false));
      && ColdStart(boot) && Ready(boot) && w.log == [Edited(lead, now), Attempted(lead, false)]
      && forall k :: 0 <= k < |Execute(w, rest).log| ==> Execute(w, rest).log[k] != Attempted(lead, true)
  {
    var boot := World([], now, now - COLD_START_WINDOW, None, [], 0);
    var edited := Next(Next(boot, Edit(lead)), Wait(2000));
    assert edited.rows == [Row(lead, now / 1000)] && Get(ROW_ID, edited.rows, lead) == Some(Row(lead, now / 1000));
    var started := Next(edited, Start(true));
    assert edited.rows[1..] == [] && ListSince(edited.rows, edited.lastSync) == [lead];
    assert [lead][1..] == [];
    FailedSyncRetriedIff(started, [], rest);
    LogOnlyGrows(Next(started, SyncNext(false)), rest);
  }

  // ------------------------------------------------------------------- the service

  predicate EnvironmentOnly(steps: seq<Step>) {
    forall i :: 0 <= i < |steps| ==> steps[i].Edit? || steps[i].Wait?
  }

  lemma {:induction false} EnvironmentKeepsRun(w: World, steps: seq<Step>)
    requires EnvironmentOnly(steps)
    ensures Execute(w, steps).run == w.run
    decreases steps
  {
    if steps == [] {
    } else {
      EnvironmentKeepsRun(Next(w, steps[0]), steps[1..]);
    }
  }

  lemma {:induction false} ExecuteConcat(w: World, a: seq<Step>, b: seq<Step>)
    ensures Execute(w, a + b) == Execute(Execute(w, a), b)
    decreases a
  {
    if a == [] {
      assert a + b == b;
    } else {
      assert (a + b)[1..] == a[1..] + b;
      ExecuteConcat(Next(w, a[0]), a[1..], b);
    }
  }

  /** The poller with its field `lastSync`, next to the CRM it polls: the leads, the clock,
      the leads the current run has left, and the log. */
  class FailsafeService {
    var rows: seq<Row>
    var now: int
    var lastSync: int
    var left: Option<seq<int>>
    var log: seq<Event>
    var started: nat

    function Snapshot(): World
      reads this
    {
      World(rows, now, lastSync, left, log, started)
    }

    constructor (rows: seq<Row>, now: int, log: seq<Event>)
      ensures Snapshot() == World(rows, now, now - COLD_START_WINDOW, None, log, 0)
    {
      this.rows, this.now, this.log := rows, now, log;
      lastSync, left, started := now - COLD_START_WINDOW, None, 0;
    }

    /** What managers and the clock do while the loop awaits a sync. */
    method Meanwhile(steps: seq<Step>)
      requires EnvironmentOnly(steps)
      modifies this`rows, this`now, this`log
      ensures Snapshot() == Execute(old(Snapshot()), steps)
    {
      var i := 0;
      while i < |steps|
        invariant 0 <= i <= |steps|
        invariant Execute(Snapshot(), steps[i..]) == Execute(old(Snapshot()), steps)
        invariant lastSync == old(lastSync) && left == old(left) && started == old(started)
      {
        assert steps[i..][1..] == steps[i + 1..];
        match steps[i] {
          case Edit(lead) =>
            rows := Put(ROW_ID, rows, Row(lead, now / 1000));
            log := log + [Edited(lead, now)];
          case Wait(ms) => now := now + ms;
        }
        i := i + 1;
      }
    }

    /** One iteration's attempt: the head of the list, whether or not its sync throws. */
    method SyncOne(ok: bool)
      requires left.Some? && left.value != []
      modifies this`left, this`log
      ensures Snapshot() == Next(old(Snapshot()), SyncNext(ok))
    {
      log := log + [Attempted(left.value[0], ok)];
      left := NonEmpty(left.value[1..]);
    }

    /** One iteration of the loop, with what happens before its attempt. */
    method Iterate(steps: seq<Step>, ok: bool)
      requires EnvironmentOnly(steps) && left.Some? && left.value != []
      modifies this
      ensures Snapshot() == Next(Execute(old(Snapshot()), steps), SyncNext(ok))
      ensures left == NonEmpty(old(left).value[1..])
    {
      EnvironmentKeepsRun(Snapshot(), steps);
      Meanwhile(steps);
      SyncOne(ok);
    }

    /** run(): every listed lead is attempted once, whatever happens before each attempt. */
    method Run(between: nat -> seq<Step>, ok: nat -> bool) returns (checked: nat, synced: nat)
      requires left.None?
      requires forall k :: EnvironmentOnly(between(k))
      modifies this
      ensures checked == |ListSince(old(rows), old(lastSync))|
      ensures Snapshot() == Execute(Next(old(Snapshot()), Start(true)), Schedule(0, checked, between, ok))
      ensures left.None? && synced == Successes(0, checked, ok)
    {
      var since := lastSync;
      lastSync := now;
      var leads := ListSince(rows, since);
      left, started := NonEmpty(leads), |log|;
      ghost var begun := Snapshot();
      synced, checked := 0, |leads|;
      for k := 0 to |leads|
        invariant left == NonEmpty(leads[k..])
        invariant Execute(Snapshot(), Schedule(k, checked, between, ok)) == Execute(begun, Schedule(0, checked, between, ok))
        invariant synced + Successes(k, checked, ok) == Successes(0, checked, ok)
      {
        ScheduleUnfolds(Snapshot(), k, checked, between, ok);
        assert leads[k..][1..] == leads[k + 1..];
        Iterate(between(k), ok(k));
        if ok(k) { synced := synced + 1; }
      }
    }
  }

  lemma ScheduleUnfolds(w: World, k: nat, n: nat, between: nat -> seq<Step>, ok: nat -> bool)
    requires k < n
    ensures Execute(w, Schedule(k, n, between, ok))
         == Execute(Next(Execute(w, between(k)), SyncNext(ok(k))), Schedule(k + 1, n, between, ok))
  {
    var rest := Schedule(k + 1, n, between, ok);
    var tail := [SyncNext(ok(k))] + rest;
    assert between(k) + tail == Schedule(k, n, between, ok);
    ExecuteConcat(w, between(k), tail);
    assert tail[1..] == rest;
  }

  /** The loop of a run that listed n leads: before the k-th sync the steps `between(k)` of
      the environment happen, and the sync succeeds when ok(k). */
  function Schedule(k: nat, n: nat, between: nat -> seq<Step>, ok: nat -> bool): seq<Step>
    requires k <= n
    decreases n - k
  {
    if k == n then [] else between(k) + [SyncNext(ok(k))] + Schedule(k + 1, n, between, ok)
  }

  function Successes(k: nat, n: nat, ok: nat -> bool): nat
    requires k <= n
    decreases n - k
  {
    if k == n then 0 else (if ok(k) then 1 else 0) + Successes(k + 1, n, ok)
  }
}
