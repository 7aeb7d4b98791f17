/** What the inbox does with a delivery, and what a row's status tells about the last
    call made for it. */
module InboxOutcomes {
  import opened Wrappers
  import opened Commerce
  import opened Payments
  import opened PaymentInbox
  import opened InboxSafety

  // ---------------------------------------------------------------- one delivery

  // The row of a provider's event, if it is there.
  predicate RowOf(rows: seq<Row>, event: Event, id: RowId) {
    id < |rows| && rows[id].event.provider == event.provider && rows[id].event.eventId == event.eventId
  }

  predicate Known(rows: seq<Row>, event: Event) {
    exists id: RowId :: id < |rows| && RowOf(rows, event, id)
  }

  // Neither finished nor held: a delivery tries it again.
  predicate Waits(status: RowStatus) {
    status.Received? || status.Broke?
  }

  // The processor is called for this row, and for no other.
  ghost predicate Calls(sys: System, r: System, cfg: Config, cat: Catalog, event: Event, env: Env, id: RowId) {
    r.calls == sys.calls + [id] && r.store == ProcessPayment(sys.store, cfg, cat, event, env.weather).0
  }

  ghost predicate CallsNone(sys: System, r: System) {
    r.calls == sys.calls && r.store == sys.store
  }

  // Main result: a new event is stored, unless the store fails, and processed, unless the
  // store fails then or no processor knows its kind.
  lemma NewDelivered(sys: System, cfg: Config, cat: Catalog, event: Event, env: Env)
    requires event.provider != "" && event.eventId != "" && !Known(sys.rows, event)
    ensures var r := Act(sys, cfg, cat, Webhook(event, env));
            if env.fault.CreateFails? then r == sys
            else
              && |r.rows| == |sys.rows| + 1 && r.rows[..|sys.rows|] == sys.rows && r.rows[|sys.rows|].event == event
              && if env.fault.FirstWriteFails? || event.kind.OtherKind? then CallsNone(sys, r)
                 else Calls(sys, r, cfg, cat, event, env, |sys.rows|)
  {
    var found := FindRow(sys.rows, event.provider, event.eventId);
    if found.Some? {
      assert RowOf(sys.rows, event, found.value);
    }
  }

  // One delivered before is processed again, in its own row, exactly if it waits for it.
  lemma AgainDelivered(sys: System, cfg: Config, cat: Catalog, event: Event, env: Env, id: RowId)
    requires OneRowPerEvent(sys.rows) && event.provider != "" && event.eventId != "" && RowOf(sys.rows, event, id)
    ensures var r := Act(sys, cfg, cat, Webhook(event, env));
            && |r.rows| == |sys.rows|
            && if Waits(sys.rows[id].status) && !env.fault.FirstWriteFails? && !sys.rows[id].event.kind.OtherKind?
               then Calls(sys, r, cfg, cat, sys.rows[id].event, env, id) else CallsNone(sys, r)
  {
    var found := FindRow(sys.rows, event.provider, event.eventId);
    assert found == Some(id);
  }

  // What names no provider or no id is not stored.
  lemma NamelessDropped(sys: System, cfg: Config, cat: Catalog, event: Event, env: Env)
    requires event.provider == "" || event.eventId == ""
    ensures Act(sys, cfg, cat, Webhook(event, env)) == sys
  {
  }

  // An operator's request processes any row but a finished one.
  lemma RequestDecided(sys: System, cfg: Config, cat: Catalog, id: RowId, env: Env)
    ensures var r := Act(sys, cfg, cat, Reprocess(id, env));
            && (id >= |sys.rows| ==> r == sys)
            && (id < |sys.rows| ==>
                  var row := sys.rows[id];
                  if row.status.Processed? || row.status.Ignored? || env.fault.FirstWriteFails? || row.event.kind.OtherKind?
                  then CallsNone(sys, r) else Calls(sys, r, cfg, cat, row.event, env, id))
  {
  }

  // ---------------------------------------------------------------- what a row tells

  function EnvOf(step: Step): Option<Env> {
    match step
    case Webhook(_, env) => Some(env)
    case Reprocess(_, env) => Some(env)
    case _ => None
  }

  predicate Asks(step: Step, row: Row, id: RowId) {
    || (step.Webhook? && step.event.provider == row.event.provider && step.event.eventId == row.event.eventId)
    || (step.Reprocess? && step.row == id)
  }

  // This step left the row as it is: its status says how the processor's call ended, or
  // that there was none, or that its end could not be written.
  ghost predicate Left(sys: System, cfg: Config, cat: Catalog, step: Step, row: Row, id: RowId) {
    && Asks(step, row, id) && EnvOf(step).Some?
    && var env := EnvOf(step).value;
       var verdict := ProcessPayment(sys.store, cfg, cat, row.event, env.weather).1;
       match row.status
       case Received => env.fault.FirstWriteFails? && row.attempts == 0
       case Ignored => row.event.kind.OtherKind? && row.processedAt == Some(env.weather.now)
       case Processing => !row.event.kind.OtherKind? && env.fault.LastWriteFails?
       case Processed => !row.event.kind.OtherKind? && verdict == Done && row.processedAt == Some(env.weather.now)
       case Broke => !row.event.kind.OtherKind? && verdict == Broken
       case UnderReview(review) => !row.event.kind.OtherKind? && verdict == Decided(review)
  }

  lemma EventLeaves(sys: System, cfg: Config, cat: Catalog, id: RowId, force: bool, env: Env)
    requires id < |sys.rows|
    ensures var r := ProcessEvent(sys, cfg, cat, id, force, env);
            && |r.rows| == |sys.rows| && (forall i :: 0 <= i < |sys.rows| && i != id ==> r.rows[i] == sys.rows[i])
            && (r.rows[id] != sys.rows[id] ==> Left(sys, cfg, cat, Reprocess(id, env), r.rows[id], id))
            && r.rows[id].event == sys.rows[id].event
  {
  }

  // Every step leaves each row as it was, or as its own call says.
  lemma StepLeaves(sys: System, cfg: Config, cat: Catalog, step: Step, id: RowId)
    requires id < |Act(sys, cfg, cat, step).rows|
    ensures var r := Act(sys, cfg, cat, step);
            (id < |sys.rows| && r.rows[id] == sys.rows[id]) || Left(sys, cfg, cat, step, r.rows[id], id)
  {
    match step
    case Webhook(event, env) =>
      if event.provider != "" && event.eventId != "" {
        var found := FindRow(sys.rows, event.provider, event.eventId);
        if found.None? {
          var arrived := sys.(rows := sys.rows + [Row(event, Received, 0, None)]);
          EventLeaves(arrived, cfg, cat, |sys.rows|, false, env);
        } else {
          EventLeaves(sys, cfg, cat, found.value, false, env);
        }
      }
    case Reprocess(row, env) =>
      if row < |sys.rows| {
        EventLeaves(sys, cfg, cat, row, true, env);
      }
    case _ =>
  }

  lemma {:induction false} RunThen(sys: System, cfg: Config, cat: Catalog, steps: seq<Step>, step: Step)
    ensures RunSteps(sys, cfg, cat, steps + [step]) == Act(RunSteps(sys, cfg, cat, steps), cfg, cat, step)
    decreases |steps|
  {
    if steps == [] {
      assert steps + [step] == [step] && [step][1..] == [];
    } else {
      assert (steps + [step])[0] == steps[0] && (steps + [step])[1..] == steps[1..] + [step];
      RunThen(Act(sys, cfg, cat, steps[0]), cfg, cat, steps[1..], step);
    }
  }

  predicate HasRow(sys: System, id: RowId, row: Row) {
    id < |sys.rows| && sys.rows[id] == row
  }

  // Step j is the last that moved the row.
  ghost predicate LastMoved(start: System, cfg: Config, cat: Catalog, steps: seq<Step>, id: RowId, row: Row, j: nat) {
    && j < |steps| && Left(RunSteps(start, cfg, cat, steps[..j]), cfg, cat, steps[j], row, id)
    && forall k :: j < k <= |steps| ==> HasRow(RunSteps(start, cfg, cat, steps[..k]), id, row)
  }

  lemma MovedNow(start: System, cfg: Config, cat: Catalog, front: seq<Step>, last: Step, id: RowId, row: Row)
    requires Left(RunSteps(start, cfg, cat, front), cfg, cat, last, row, id) && HasRow(RunSteps(start, cfg, cat, front + [last]), id, row)
    ensures LastMoved(start, cfg, cat, front + [last], id, row, |front|)
  {
    var steps := front + [last];
    assert steps[..|front|] == front && steps[..|steps|] == steps;
  }

  lemma MovedBefore(start: System, cfg: Config, cat: Catalog, front: seq<Step>, last: Step, id: RowId, row: Row, j: nat)
    requires LastMoved(start, cfg, cat, front, id, row, j) && HasRow(RunSteps(start, cfg, cat, front + [last]), id, row)
    ensures LastMoved(start, cfg, cat, front + [last], id, row, j)
  {
    var steps := front + [last];
    assert steps[..j] == front[..j] && steps[..|steps|] == steps;
    assert forall k :: j < k <= |front| ==> steps[..k] == front[..k];
  }

  // Main result, over runs: of every row some step is the last to have moved it, and the
  // row's status says how that step's call for its event ended.
  lemma {:induction false} RowTells(users: set<UserId>, cfg: Config, cat: Catalog, steps: seq<Step>, id: RowId) returns (j: nat)
    requires id < |RunSteps(Start(users), cfg, cat, steps).rows|
    ensures LastMoved(Start(users), cfg, cat, steps, id, RunSteps(Start(users), cfg, cat, steps).rows[id], j)
    decreases |steps|
  {
    var front, last := steps[..|steps| - 1], steps[|steps| - 1];
    var before, row := RunSteps(Start(users), cfg, cat, front), RunSteps(Start(users), cfg, cat, steps).rows[id];
    assert steps == front + [last];
    RunThen(Start(users), cfg, cat, front, last);
    StepLeaves(before, cfg, cat, last, id);
    if HasRow(before, id, row) {
      j := RowTells(users, cfg, cat, front, id);
      MovedBefore(Start(users), cfg, cat, front, last, id, row, j);
    } else {
      j := |front|;
      MovedNow(Start(users), cfg, cat, front, last, id, row);
    }
  }
}
