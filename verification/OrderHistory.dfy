/** What the history rows, the version and the listener's requests tell about an order over
    whole runs. */
module OrderHistory {
  import opened Wrappers
  import opened CrmLens
  import opened OrderMirror

  /** The request body's bounds: an integer from 0 to 100. */
  predicate Percent(x: real) {
    0.0 <= x <= 100.0 && x == x.Floor as real
  }

  predicate ValidInput(input: ProgressInput) {
    input.progress.Some? ==> Percent(input.progress.value)
  }

  // ----------------------------------------------------------- folding history

  /** Applying an order's rows, oldest first, to a stage and a progress. */
  function Replay(start: (Stage, real), rows: seq<HistoryRow>, o: nat): (Stage, real) {
    if rows == [] then start
    else
      var last := rows[|rows| - 1];
      if last.orderId == o then (last.stage, last.progress) else Replay(start, rows[..|rows| - 1], o)
  }

  function Rows(rows: seq<HistoryRow>, o: nat): nat {
    if rows == [] then 0
    else Rows(rows[..|rows| - 1], o) + if rows[|rows| - 1].orderId == o then 1 else 0
  }

  /** The stage of order o that the request tells of. */
  function Names(r: Request, o: nat): Option<Stage> {
    match r
    case Ready(x) => if x == o then Some(ReadyForDelivery) else None
    case StageChanged(x, stage, _) => if x == o then Some(stage) else None
    case ProgressChanged(_, _, _) => None
  }

  /** The stage the last stage request for the order names. */
  function LastNamed(requests: seq<Request>, o: nat): Option<Stage> {
    if requests == [] then None
    else
      var last := Names(requests[|requests| - 1], o);
      if last.Some? then last else LastNamed(requests[..|requests| - 1], o)
  }

  predicate Departure(r: Request, o: nat) {
    r.StageChanged? && r.orderId == o && r.oldStage == ReadyForDelivery && r.newStage != ReadyForDelivery
  }

  predicate DepartsBetween(requests: seq<Request>, o: nat, i: int, j: int) {
    exists k :: i < k < j && 0 <= k < |requests| && Departure(requests[k], o)
  }

  /** The step is no sync of this order's deal and carries inputs that pass validation. */
  predicate Undisturbed(b: Backend, step: Step, o: nat) {
    match step
    case Update(_, input, _) => ValidInput(input)
    case Sync(dealId) => o < |b.orders| ==> b.orders[o].dealId != dealId
    case _ => true
  }

  predicate UndisturbedRun(cfg: Settings, b: Backend, steps: seq<Step>, o: nat)
    decreases steps
  {
    steps == [] || (Undisturbed(b, steps[0], o) && UndisturbedRun(cfg, Next(cfg, b, steps[0]), steps[1..], o))
  }

  /** Replaying the rows over `start` gives the order's stage and progress, and the
      version counts the rows. */
  predicate RowsExplain(order: Order, rows: seq<HistoryRow>, o: nat, start: (Stage, int), v: nat) {
    && (order.stage, order.progress as real) == Replay((start.0, start.1 as real), rows, o)
    && order.version == v + Rows(rows, o)
  }

  /** The last stage request names the stage; a ready request with no departure after it
      means that the order is ready; two ready requests have a departure between them. */
  ghost predicate RequestsExplain(stage: Stage, sent: seq<Request>, o: nat, start: Stage) {
    && stage == LastNamed(sent, o).GetOr(start)
    && (forall i :: 0 <= i < |sent| && sent[i] == Ready(o) && !DepartsBetween(sent, o, i, |sent|)
          ==> stage == ReadyForDelivery)
    && (forall i, j :: 0 <= i < j < |sent| && sent[i] == Ready(o) && sent[j] == Ready(o) ==> DepartsBetween(sent, o, i, j))
  }

  /** Since the moment history and requests had lengths h and r and the order stood at
      `start` with version v, its rows, version and requests account for where it is. */
  ghost predicate Accounted(b: Backend, o: nat, h: nat, r: nat, start: (Stage, int), v: nat) {
    && o < |b.orders| && h <= |b.history| && r <= |b.requests|
    && RowsExplain(b.orders[o], b.history[h..], o, start, v)
    && RequestsExplain(b.orders[o].stage, b.requests[r..], o, start.0)
  }

  lemma ReplayAppend(start: (Stage, real), rows: seq<HistoryRow>, row: HistoryRow, o: nat)
    ensures Replay(start, rows + [row], o) == if row.orderId == o then (row.stage, row.progress) else Replay(start, rows, o)
    ensures Rows(rows + [row], o) == Rows(rows, o) + if row.orderId == o then 1 else 0
  {
    assert (rows + [row])[..|rows|] == rows;
  }

  lemma ValidProgressIsKept(input: ProgressInput)
    requires ValidInput(input) && input.progress.Some?
    ensures ClampPercent(input.progress.value) as real == input.progress.value
  {
    ClampOfPercent(input.progress.value.Floor);
  }

  lemma DepartureAppend(sent: seq<Request>, more: seq<Request>, o: nat)
    ensures forall i, j :: j <= |sent| ==> (DepartsBetween(sent + more, o, i, j) <==> DepartsBetween(sent, o, i, j))
  {
    forall i, j | j <= |sent| ensures DepartsBetween(sent + more, o, i, j) <==> DepartsBetween(sent, o, i, j) {
      if DepartsBetween(sent, o, i, j) {
        var k :| i < k < j && 0 <= k < |sent| && Departure(sent[k], o);
        assert Departure((sent + more)[k], o);
      }
    }
  }

  /** The listener's part of the step: how one classified update extends the requests. */
  lemma RequestsStayExplained(sent: seq<Request>, o: nat, start: Stage, oldStage: Stage, oldPercent: int,
                              newStage: Stage, newPercent: real)
    requires RequestsExplain(oldStage, sent, o, start)
    ensures RequestsExplain(newStage, sent + Classify(o, oldStage, oldPercent, newStage, newPercent), o, start)
  {
    var more := Classify(o, oldStage, oldPercent, newStage, newPercent);
    var sent' := sent + more;
    DepartureAppend(sent, more, o);
    if more != [] {
      assert sent'[..|sent|] == sent && sent'[|sent|] == more[0];
    } else {
      assert sent' == sent;
    }
    if oldStage == ReadyForDelivery && newStage != ReadyForDelivery {
      assert Departure(sent'[|sent|], o);
      assert forall i :: 0 <= i < |sent| ==> DepartsBetween(sent', o, i, |sent'|);
    }
  }

  /** Requests about another order change nothing. */
  lemma OtherRequestsIgnored(sent: seq<Request>, o: nat, start: Stage, stage: Stage, more: seq<Request>)
    requires RequestsExplain(stage, sent, o, start) && |more| <= 1
    requires forall m :: m in more ==> m.orderId != o
    ensures RequestsExplain(stage, sent + more, o, start)
  {
    var sent' := sent + more;
    DepartureAppend(sent, more, o);
    if more != [] {
      assert more[0] in more;
      assert sent'[..|sent|] == sent && sent'[|sent|] == more[0];
      assert forall i :: DepartsBetween(sent', o, i, |sent|) ==> DepartsBetween(sent', o, i, |sent'|);
    } else {
      assert sent' == sent;
    }
  }

  lemma RowsStayExplained(order: Order, rows: seq<HistoryRow>, row: HistoryRow, order': Order, o: nat,
                          start: (Stage, int), v: nat)
    requires RowsExplain(order, rows, o, start, v)
    requires if row.orderId == o
             then order'.stage == row.stage && order'.progress as real == row.progress && order'.version == order.version + 1
             else order' == order
    ensures RowsExplain(order', rows + [row], o, start, v)
  {
    ReplayAppend((start.0, start.1 as real), rows, row, o);
  }

  function NewRow(b: Backend, x: nat, input: ProgressInput, actor: Option<nat>): HistoryRow
    requires x < |b.orders|
  {
    HistoryRow(x, input.stage.GetOr(b.orders[x].stage), input.progress.GetOr(b.orders[x].progress as real), input.comment, actor)
  }

  /** What an update adds to the tables since they had lengths h and r. */
  lemma UpdateExtends(b: Backend, x: nat, input: ProgressInput, actor: Option<nat>, h: nat, r: nat)
    requires x < |b.orders| && h <= |b.history| && r <= |b.requests|
    ensures var b', row := UpdateProgressStep(b, x, input, actor).0, NewRow(b, x, input, actor);
      && h <= |b'.history| && r <= |b'.requests|
      && b'.history[h..] == b.history[h..] + [row]
      && b'.requests[r..] == b.requests[r..] + Classify(x, b.orders[x].stage, b.orders[x].progress, row.stage, row.progress)
      && b'.orders == b.orders[x := UpdatedOrder(b.orders[x], input)]
  {
  }

  lemma RowsAfterUpdate(b: Backend, x: nat, input: ProgressInput, actor: Option<nat>,
                        o: nat, h: nat, start: (Stage, int), v: nat)
    requires x < |b.orders| && o < |b.orders| && ValidInput(input) && h <= |b.history|
    requires RowsExplain(b.orders[o], b.history[h..], o, start, v)
    ensures var b' := UpdateProgressStep(b, x, input, actor).0;
      h <= |b'.history| && o < |b'.orders| && RowsExplain(b'.orders[o], b'.history[h..], o, start, v)
  {
    if input.progress.Some? { ValidProgressIsKept(input); }
    UpdateExtends(b, x, input, actor, h, 0);
    var orders' := b.orders[x := UpdatedOrder(b.orders[x], input)];
    RowsStayExplained(b.orders[o], b.history[h..], NewRow(b, x, input, actor), orders'[o], o, start, v);
  }

  lemma RequestsAfterUpdate(b: Backend, x: nat, input: ProgressInput, actor: Option<nat>, o: nat, r: nat, start: Stage)
    requires x < |b.orders| && o < |b.orders| && r <= |b.requests|
    requires RequestsExplain(b.orders[o].stage, b.requests[r..], o, start)
    ensures var b' := UpdateProgressStep(b, x, input, actor).0;
      r <= |b'.requests| && o < |b'.orders| && RequestsExplain(b'.orders[o].stage, b'.requests[r..], o, start)
  {
    var order, row := b.orders[x], NewRow(b, x, input, actor);
    UpdateExtends(b, x, input, actor, 0, r);
    if x == o {
      RequestsStayExplained(b.requests[r..], o, start, order.stage, order.progress, row.stage, row.progress);
    } else {
      OtherRequestsIgnored(b.requests[r..], o, start, b.orders[o].stage,
                           Classify(x, order.stage, order.progress, row.stage, row.progress));
    }
  }

  lemma UpdateStaysAccounted(b: Backend, x: nat, input: ProgressInput, actor: Option<nat>,
                             o: nat, h: nat, r: nat, start: (Stage, int), v: nat)
    requires Accounted(b, o, h, r, start, v) && ValidInput(input)
    ensures Accounted(UpdateProgressStep(b, x, input, actor).0, o, h, r, start, v)
  {
    if x < |b.orders| {
      RowsAfterUpdate(b, x, input, actor, o, h, start, v);
      RequestsAfterUpdate(b, x, input, actor, o, r, start.0);
    }
  }

  /** A sync of another deal touches nothing the account is about. */
  lemma SyncStaysAccounted(cfg: Settings, b: Backend, dealId: int, o: nat, h: nat, r: nat, start: (Stage, int), v: nat)
    requires Accounted(b, o, h, r, start, v) && b.orders[o].dealId != dealId
    ensures Accounted(SyncStep(cfg, b, dealId).0, o, h, r, start, v)
  {
    var b' := SyncStep(cfg, b, dealId).0;
    assert o < |b'.orders| && b'.orders[o] == b.orders[o];
    assert b'.history == b.history && b'.requests == b.requests;
  }

  lemma StepStaysAccounted(cfg: Settings, b: Backend, step: Step, o: nat, h: nat, r: nat, start: (Stage, int), v: nat)
    requires Accounted(b, o, h, r, start, v) && Undisturbed(b, step, o)
    ensures Accounted(Next(cfg, b, step), o, h, r, start, v)
  {
    match step
    case Update(x, input, actor) => UpdateStaysAccounted(b, x, input, actor, o, h, r, start, v);
    case Sync(dealId) => SyncStaysAccounted(cfg, b, dealId, o, h, r, start, v);
    case _ =>
  }

  lemma {:induction false} RunStaysAccounted(cfg: Settings, b: Backend, steps: seq<Step>,
                                             o: nat, h: nat, r: nat, start: (Stage, int), v: nat)
    requires Accounted(b, o, h, r, start, v) && UndisturbedRun(cfg, b, steps, o)
    ensures Accounted(Execute(cfg, b, steps), o, h, r, start, v)
    decreases steps
  {
    if steps == [] {
    } else {
      StepStaysAccounted(cfg, b, steps[0], o, h, r, start, v);
      RunStaysAccounted(cfg, Next(cfg, b, steps[0]), steps[1..], o, h, r, start, v);
    }
  }

  /** Over any run without a sync of the order's deal: replaying the order's new history
      rows over its initial state gives its current stage and progress, the version grew by
      the number of rows, the last stage request names the current stage, and between two
      ready requests lies a request that reports the departure from readiness. */
  lemma HistoryExplainsOrder(cfg: Settings, b: Backend, steps: seq<Step>, o: nat)
    requires o < |b.orders| && UndisturbedRun(cfg, b, steps, o)
    ensures var b' := Execute(cfg, b, steps);
      && o < |b'.orders| && |b.history| <= |b'.history| && |b.requests| <= |b'.requests|
      && var rows, sent := b'.history[|b.history|..], b'.requests[|b.requests|..];
         && Replay((b.orders[o].stage, b.orders[o].progress as real), rows, o)
            == (b'.orders[o].stage, b'.orders[o].progress as real)
         && b'.orders[o].version == b.orders[o].version + Rows(rows, o)
         && LastNamed(sent, o).GetOr(b.orders[o].stage) == b'.orders[o].stage
         && forall i, j :: 0 <= i < j < |sent| && sent[i] == Ready(o) && sent[j] == Ready(o)
                           ==> DepartsBetween(sent, o, i, j)
  {
    var start := (b.orders[o].stage, b.orders[o].progress);
    assert b.history[|b.history|..] == [] && b.requests[|b.requests|..] == [];
    assert Accounted(b, o, |b.history|, |b.requests|, start, b.orders[o].version);
    RunStaysAccounted(cfg, b, steps, o, |b.history|, |b.requests|, start, b.orders[o].version);
  }

  // ------------------------------------------------------ version with syncs mixed in

  /** The syncs of a run that updated this order. */
  function Syncs(cfg: Settings, b: Backend, steps: seq<Step>, o: nat): nat
    decreases steps
  {
    if steps == [] then 0
    else (if SyncsOrder(cfg, b, steps[0], o) then 1 else 0)
         + Syncs(cfg, Next(cfg, b, steps[0]), steps[1..], o)
  }

  predicate SyncsOrder(cfg: Settings, b: Backend, step: Step, o: nat) {
    step.Sync? && FindOrder(b.orders, step.dealId) == Some(o) && SyncStep(cfg, b, step.dealId).1 == Done
  }

  lemma StepCountsVersion(cfg: Settings, b: Backend, step: Step, o: nat)
    requires o < |b.orders|
    ensures var b' := Next(cfg, b, step);
      && o < |b'.orders|
      && b'.orders[o].version - b.orders[o].version
         == Rows(b'.history, o) - Rows(b.history, o) + if SyncsOrder(cfg, b, step, o) then 1 else 0
  {
    if step.Update? && step.orderId < |b.orders| {
      UpdateExtends(b, step.orderId, step.input, step.actor, 0, 0);
      ReplayAppend((PreparationForProduction, 0.0), b.history, NewRow(b, step.orderId, step.input, step.actor), o);
    }
  }

  /** In every run at all, the version counts the order's history rows and its syncs. */
  lemma {:induction false} VersionCountsRowsAndSyncs(cfg: Settings, b: Backend, steps: seq<Step>, o: nat)
    requires o < |b.orders|
    ensures var b' := Execute(cfg, b, steps);
      && o < |b'.orders|
      && b'.orders[o].version - b.orders[o].version == Rows(b'.history, o) - Rows(b.history, o) + Syncs(cfg, b, steps, o)
    decreases steps
  {
    if steps == [] {
    } else {
      StepCountsVersion(cfg, b, steps[0], o);
      VersionCountsRowsAndSyncs(cfg, Next(cfg, b, steps[0]), steps[1..], o);
    }
  }

  // ------------------------------------------------------------ what one update leaves

  /** An update of a known order writes what is entered, the progress clamped, and nothing else
      of the order; it leaves one history row with the stage and progress that result, the
      comment and the actor, and one job for the order's deal unless its id has been used.
      An unknown order is reported and nothing changes. */
  lemma UpdateIsRecorded(cfg: Settings, b: Backend, o: nat, input: ProgressInput, actor: Option<nat>)
    ensures (UpdateProgressStep(b, o, input, actor).1 == Done <==> o < |b.orders|)
    ensures o >= |b.orders| ==> UpdateProgressStep(b, o, input, actor) == (b, OrderNotFound)
    ensures var b' := Next(cfg, b, Update(o, input, actor));
      o < |b.orders| ==>
        && |b'.orders| == |b.orders| && |b'.history| == |b.history| + 1 && b'.history[..|b.history|] == b.history
        && var was, now', row := b.orders[o], b'.orders[o], b'.history[|b.history|];
           && now'.stage == (if input.stage.Some? then input.stage.value else was.stage)
           && now'.progress == (if input.progress.Some? then ClampPercent(input.progress.value) else was.progress)
           && (if input.comment.Some? then now'.comment == input.comment else now'.comment == was.comment)
           && now'.(stage := was.stage, progress := was.progress, comment := was.comment, version := was.version) == was
           && row.orderId == o && row.stage == now'.stage && row.comment == input.comment && row.changedBy == actor
           && (input.progress.None? ==> row.progress == was.progress as real)
           && (input.progress.Some? ==> row.progress == input.progress.value)
           && (if JobId(o, b.now) in b.usedIds then b'.queue == b.queue
               else b'.queue == b.queue + [Job(JobId(o, b.now), was.dealId, input)])
    ensures var b' := Next(cfg, b, Update(o, input, actor));
      && b'.leads == b.leads && b'.contacts == b.contacts && b'.identity == b.identity && b'.now == b.now
      && forall x :: 0 <= x < |b.orders| && x != o ==> x < |b'.orders| && b'.orders[x] == b.orders[x]
  {
  }

  /** What the listener asks for after an update: that the order is ready when it has become so,
      else that its stage has changed when it has, else that its progress has changed when that
      is by ten points or more; never two at once. */
  lemma ListenerAsksIff(cfg: Settings, b: Backend, o: nat, input: ProgressInput, actor: Option<nat>)
    requires o < |b.orders|
    ensures var b' := Next(cfg, b, Update(o, input, actor));
      var was, stage', percent := b.orders[o], b'.orders[o].stage, input.progress.GetOr(b.orders[o].progress as real);
      var far := percent >= was.progress as real + 10.0 || percent <= was.progress as real - 10.0;
      && b.requests <= b'.requests && |b'.requests| <= |b.requests| + 1
      && (b'.requests == b.requests + [Ready(o)] <==> stage' == ReadyForDelivery && was.stage != ReadyForDelivery)
      && (b'.requests == b.requests + [StageChanged(o, stage', was.stage)] <==> stage' != ReadyForDelivery && was.stage != stage')
      && (b'.requests == b.requests + [ProgressChanged(o, percent, was.progress)] <==> was.stage == stage' && far)
      && (b'.requests == b.requests <==> was.stage == stage' && !far)
  {
    var stage, percent := input.stage.GetOr(b.orders[o].stage), input.progress.GetOr(b.orders[o].progress as real);
    var asked := Classify(o, b.orders[o].stage, b.orders[o].progress, stage, percent);
    var requests' := Next(cfg, b, Update(o, input, actor)).requests;
    assert requests' == b.requests + asked;
    forall r ensures requests' == b.requests + [r] <==> asked == [r] {
      if requests' == b.requests + [r] {
        assert requests'[|b.requests|..] == asked && (b.requests + [r])[|b.requests|..] == [r];
      }
    }
    assert requests' == b.requests <==> asked == [] by { assert |requests'| == |b.requests| + |asked|; }
  }
}
