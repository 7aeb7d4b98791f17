/** The inbox over every run: one row per provider event, attempts counted
    exactly, finished rows final, and held rows released by an operator only. */
module InboxSafety {
  import opened Wrappers
  import opened Commerce
  import opened Payments
  import opened PaymentInbox

  function CallsFor(calls: seq<RowId>, id: RowId): nat {
    if calls == [] then 0
    else CallsFor(calls[..|calls| - 1], id) + if calls[|calls| - 1] == id then 1 else 0
  }

  ghost predicate OneRowPerEvent(rows: seq<Row>) {
    forall i, j :: 0 <= i < j < |rows| ==>
      rows[i].event.provider != rows[j].event.provider || rows[i].event.eventId != rows[j].event.eventId
  }

  ghost predicate AttemptsCounted(sys: System) {
    && (forall i :: 0 <= i < |sys.rows| ==> sys.rows[i].attempts == CallsFor(sys.calls, i))
    && (forall i :: i >= |sys.rows| ==> CallsFor(sys.calls, i) == 0)
  }

  ghost predicate InboxSound(sys: System) {
    OneRowPerEvent(sys.rows) && AttemptsCounted(sys)
  }

  // Only row `id`, which was open, moved; its event stayed what it was.
  ghost predicate OneMoved(sys: System, r: System, id: RowId) {
    && id < |sys.rows| && |r.rows| == |sys.rows| && r.rows[id].event == sys.rows[id].event
    && (forall i :: 0 <= i < |sys.rows| && i != id ==> r.rows[i] == sys.rows[i])
    && ((r.calls == sys.calls && r.rows[id].attempts == sys.rows[id].attempts)
        || (r.calls == sys.calls + [id] && r.rows[id].attempts == sys.rows[id].attempts + 1))
  }

  lemma ProcessEventMoves(sys: System, cfg: Config, cat: Catalog, id: RowId, force: bool, env: Env)
    requires id < |sys.rows|
    ensures var r := ProcessEvent(sys, cfg, cat, id, force, env);
            && OneMoved(sys, r, id)
            && (sys.rows[id].status.Processed? || sys.rows[id].status.Ignored? ==> r == sys)
            && (Terminal(sys.rows[id].status) && !force ==> r == sys)
  {
  }

  lemma MovedKeepsSound(sys: System, r: System, id: RowId)
    requires InboxSound(sys) && OneMoved(sys, r, id)
    ensures InboxSound(r)
  {
    forall i: nat
      ensures CallsFor(r.calls, i) == CallsFor(sys.calls, i) + if r.calls != sys.calls && i == id then 1 else 0
    {
      if r.calls != sys.calls {
        assert r.calls[..|sys.calls|] == sys.calls;
      }
    }
    assert forall i :: 0 <= i < |sys.rows| ==> r.rows[i].event == sys.rows[i].event;
  }

  lemma ArrivalKeepsSound(sys: System, event: Event)
    requires InboxSound(sys) && FindRow(sys.rows, event.provider, event.eventId).None?
    ensures InboxSound(sys.(rows := sys.rows + [Row(event, Received, 0, None)]))
  {
  }

  // How a step may change the inbox: rows are never removed, no event is rewritten,
  // and the rows listed as kept stay exactly as they are.
  ghost predicate Onward(before: seq<Row>, after: seq<Row>, kept: set<RowId>) {
    && |before| <= |after|
    && forall i :: 0 <= i < |before| ==> after[i].event == before[i].event && (i in kept ==> after[i] == before[i])
  }

  // Rows no webhook can move, and those no one can.
  ghost function Held(rows: seq<Row>): set<RowId> {
    set i | 0 <= i < |rows| && (Terminal(rows[i].status) || rows[i].status.Processing?)
  }

  ghost function Finished(rows: seq<Row>): set<RowId> {
    set i | 0 <= i < |rows| && (rows[i].status.Processed? || rows[i].status.Ignored?)
  }

  ghost function KeptBy(rows: seq<Row>, step: Step): set<RowId> {
    if step.Reprocess? then Finished(rows) + (Held(rows) - {step.row}) else Held(rows)
  }

  lemma ReceiveMoves(sys: System, cfg: Config, cat: Catalog, event: Event, env: Env)
    requires InboxSound(sys)
    ensures var r := Receive(sys, cfg, cat, event, env);
            InboxSound(r) && Onward(sys.rows, r.rows, Held(sys.rows))
  {
    if event.provider != "" && event.eventId != "" {
      var existing := FindRow(sys.rows, event.provider, event.eventId);
      if existing.None? {
        if !env.fault.CreateFails? {
          var arrived := sys.(rows := sys.rows + [Row(event, Received, 0, None)]);
          ArrivalKeepsSound(sys, event);
          ProcessEventMoves(arrived, cfg, cat, |sys.rows|, false, env);
          MovedKeepsSound(arrived, ProcessEvent(arrived, cfg, cat, |sys.rows|, false, env), |sys.rows|);
        }
      } else {
        ProcessEventMoves(sys, cfg, cat, existing.value, false, env);
        MovedKeepsSound(sys, ProcessEvent(sys, cfg, cat, existing.value, false, env), existing.value);
      }
    }
  }

  lemma ActMoves(sys: System, cfg: Config, cat: Catalog, step: Step)
    requires InboxSound(sys)
    ensures var r := Act(sys, cfg, cat, step);
            InboxSound(r) && Onward(sys.rows, r.rows, KeptBy(sys.rows, step))
  {
    match step
    case Webhook(event, env) => ReceiveMoves(sys, cfg, cat, event, env);
    case Reprocess(row, env) =>
      if row < |sys.rows| {
        ProcessEventMoves(sys, cfg, cat, row, true, env);
        MovedKeepsSound(sys, ProcessEvent(sys, cfg, cat, row, true, env), row);
      }
    case _ =>
  }

  lemma {:induction false} EveryRunKeepsInbox(sys: System, cfg: Config, cat: Catalog, steps: seq<Step>)
    requires InboxSound(sys)
    ensures InboxSound(RunSteps(sys, cfg, cat, steps))
    decreases |steps|
  {
    if steps != [] {
      ActMoves(sys, cfg, cat, steps[0]);
      EveryRunKeepsInbox(Act(sys, cfg, cat, steps[0]), cfg, cat, steps[1..]);
    }
  }

  // A processed or ignored event is never touched again: same row, same attempts,
  // no further processor call.
  lemma {:induction false} FinishedForGood(sys: System, cfg: Config, cat: Catalog, steps: seq<Step>, id: RowId)
    requires InboxSound(sys) && id in Finished(sys.rows)
    ensures var r := RunSteps(sys, cfg, cat, steps);
            id < |r.rows| && r.rows[id] == sys.rows[id] && CallsFor(r.calls, id) == CallsFor(sys.calls, id)
    decreases |steps|
  {
    EveryRunKeepsInbox(sys, cfg, cat, steps);
    if steps != [] {
      ActMoves(sys, cfg, cat, steps[0]);
      FinishedForGood(Act(sys, cfg, cat, steps[0]), cfg, cat, steps[1..], id);
    }
  }

  // A row held for review, or stuck in processing, waits for an operator: no
  // number of deliveries moves it.
  lemma {:induction false} HeldUntilReprocessed(sys: System, cfg: Config, cat: Catalog, steps: seq<Step>, id: RowId)
    requires InboxSound(sys) && id in Held(sys.rows)
    requires forall k :: 0 <= k < |steps| ==> !(steps[k].Reprocess? && steps[k].row == id)
    ensures var r := RunSteps(sys, cfg, cat, steps);
            id < |r.rows| && r.rows[id] == sys.rows[id] && CallsFor(r.calls, id) == CallsFor(sys.calls, id)
    decreases |steps|
  {
    EveryRunKeepsInbox(sys, cfg, cat, steps);
    if steps != [] {
      ActMoves(sys, cfg, cat, steps[0]);
      HeldUntilReprocessed(Act(sys, cfg, cat, steps[0]), cfg, cat, steps[1..], id);
    }
  }
}
