/** The webhook inbox: one row per provider event, processed at most until it is
    done, beside everything else that touches the same stores. */
module PaymentInbox {
  import opened Wrappers
  import opened DeliveryKeys
  import opened Commerce
  import opened FulfillmentSpec
  import opened Payments
  import W = WalletSpec

  datatype RowStatus = Received | Processing | Processed | Ignored | Broke | UnderReview(review: ReviewStatus)

  datatype Row = Row(event: Event, status: RowStatus, attempts: nat, processedAt: Option<Time>)

  type RowId = nat

  // Beside the stores, every processor call ever made, by the row it was for.
  datatype System = System(store: Store, rows: seq<Row>, calls: seq<RowId>)

  datatype Fault = NoFault | CreateFails | FirstWriteFails | LastWriteFails

  datatype Env = Env(weather: Weather, fault: Fault)

  predicate Terminal(status: RowStatus) {
    status.Processed? || status.Ignored? || status.UnderReview?
  }

  predicate Processable(kind: EventKind) {
    !kind.OtherKind?
  }

  function FindRow(rows: seq<Row>, provider: string, eventId: string): (r: Option<RowId>)
    ensures r.Some? ==> r.value < |rows| && rows[r.value].event.provider == provider && rows[r.value].event.eventId == eventId
    ensures r.None? ==> forall i :: 0 <= i < |rows| ==> rows[i].event.provider != provider || rows[i].event.eventId != eventId
  {
    if rows == [] then None
    else
      var last := rows[|rows| - 1];
      if last.event.provider == provider && last.event.eventId == eventId then Some(|rows| - 1)
      else FindRow(rows[..|rows| - 1], provider, eventId)
  }

  function StatusAfter(verdict: Verdict): RowStatus {
    match verdict
    case Done => Processed
    case Broken => Broke
    case Decided(review) => UnderReview(review)
  }

  function SetRow(sys: System, id: RowId, row: Row): System
    requires id < |sys.rows|
  {
    sys.(rows := sys.rows[id := row])
  }

  ghost function ProcessEvent(sys: System, cfg: Config, cat: Catalog, id: RowId, force: bool, env: Env): System
    requires id < |sys.rows|
  {
    var row := sys.rows[id];
    if Terminal(row.status) && !(force && row.status.UnderReview?) then sys
    else if env.fault.FirstWriteFails? then sys
    else if !Processable(row.event.kind) then SetRow(sys, id, row.(status := Ignored, processedAt := Some(env.weather.now)))
    else
      var started := row.(status := Processing, attempts := row.attempts + 1);
      var (store, verdict) := ProcessPayment(sys.store, cfg, cat, row.event, env.weather);
      var finished := if env.fault.LastWriteFails? then started
                      else started.(status := StatusAfter(verdict), processedAt := if verdict.Done? then Some(env.weather.now) else row.processedAt);
      System(store, sys.rows[id := finished], sys.calls + [id])
  }

  // A verified webhook delivery; one that fails verification never gets here.
  ghost function Receive(sys: System, cfg: Config, cat: Catalog, event: Event, env: Env): System {
    if event.provider == "" || event.eventId == "" then sys
    else
      var existing := FindRow(sys.rows, event.provider, event.eventId);
      if existing.None? then
        if env.fault.CreateFails? then sys
        else ProcessEvent(sys.(rows := sys.rows + [Row(event, Received, 0, None)]), cfg, cat, |sys.rows|, false, env)
      else if Terminal(sys.rows[existing.value].status) || sys.rows[existing.value].status.Processing? then sys
      else ProcessEvent(sys, cfg, cat, existing.value, false, env)
  }

  // An operator's request to process a row.
  ghost function Process(sys: System, cfg: Config, cat: Catalog, id: RowId, env: Env): System {
    if id < |sys.rows| then ProcessEvent(sys, cfg, cat, id, true, env) else sys
  }

  datatype Step =
    | Webhook(event: Event, env: Env)
    | Reprocess(row: RowId, env: Env)
    | PlaceOrder(no: OrderNo, order: Order)
    | UseWallet(op: W.Operation)
    | AddGrant(grant: Grant)

  // What else goes on beside the payment events: checkouts place orders, users and
  // admins use the wallet, admins hand out grants - under keys of their own.
  ghost predicate Allowed(sys: System, step: Step) {
    match step
    case PlaceOrder(no, order) =>
      && no !in sys.store.orders && order.status in {Pending, CheckoutCreated}
      && (order.key.Some? ==> order.key.value.ClientKey? && !HasKey(sys.store.orders, order.key.value))
    case UseWallet(op) => ForeignOperation(op)
    case AddGrant(grant) => Foreign(grant.key) && grant.source == Manual
    case _ => true
  }

  ghost function Act(sys: System, cfg: Config, cat: Catalog, step: Step): System {
    match step
    case Webhook(event, env) => Receive(sys, cfg, cat, event, env)
    case Reprocess(row, env) => Process(sys, cfg, cat, row, env)
    case PlaceOrder(no, order) => sys.(store := SetOrder(sys.store, no, order))
    case UseWallet(op) => sys.(store := sys.store.(wallet := W.Execute(sys.store.wallet, op)))
    case AddGrant(grant) =>
      var created := CreateGrant(sys.store.grants, sys.store.wallet.users, cat, grant);
      if created.Failure? then sys else sys.(store := sys.store.(grants := created.value.0))
  }

  ghost function Start(users: set<UserId>): System {
    System(EmptyStore(users), [], [])
  }

  ghost function RunSteps(sys: System, cfg: Config, cat: Catalog, steps: seq<Step>): System
    decreases |steps|
  {
    if steps == [] then sys else RunSteps(Act(sys, cfg, cat, steps[0]), cfg, cat, steps[1..])
  }

  ghost predicate AllowedRun(sys: System, cfg: Config, cat: Catalog, steps: seq<Step>)
    decreases |steps|
  {
    steps == [] || (Allowed(sys, steps[0]) && AllowedRun(Act(sys, cfg, cat, steps[0]), cfg, cat, steps[1..]))
  }
}
