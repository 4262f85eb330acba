/** The data derivations of the dashboard's active-tables panel
    (src/components/dashboard/active-tables.tsx): the elapsed-time split, the line
    subtotals, the guards in front of the three requests, and how the loaded lists fall
    back to empty. A listing row is an `ActiveRow` of the store. */
module ActiveTables {
  import opened Common
  import opened Seqs
  import opened DbRows
  import Ledger
  import SessionInvariant

  const MsPerHour: int := 3600000
  const MsPerMinute: int := 60000

  // ---------------------------------------------------------------------------
  // Elapsed time

  /** JavaScript's integer quotient before flooring, truncated toward zero. */
  function TruncDiv(a: int, d: int): int
    requires d > 0
  {
    if a >= 0 then a / d else -((-a) / d)
  }

  /** JavaScript's `%` on integers: truncating, so the remainder has the dividend's sign. */
  function JsRem(a: int, d: int): (r: int)
    requires d > 0
    ensures a >= 0 ==> 0 <= r < d
    ensures a < 0 ==> -d < r <= 0
    ensures a == d * TruncDiv(a, d) + r
  {
    if a >= 0 then a % d else -((-a) % d)
  }

  /** The two numbers `getDuration` prints. */
  datatype Duration = Duration(hours: int, minutes: int)

  /** `getDuration`: hours is the floored quotient of the millisecond difference by an
      hour; minutes is the floored quotient of its truncating remainder by a minute.
      `Math.floor(x / d)` for a positive `d` is Dafny's `/`. */
  function GetDuration(startMs: int, nowMs: int): Duration {
    var diffMs := nowMs - startMs;
    Duration(diffMs / MsPerHour, JsRem(diffMs, MsPerHour) / MsPerMinute)
  }

  /** For a start not in the future: hours are the whole hours elapsed, minutes lie in
      0..59, and together they give exactly the whole minutes elapsed. */
  lemma DurationSplit(startMs: int, nowMs: int)
    requires nowMs >= startMs
    ensures var d := GetDuration(startMs, nowMs);
      && d.hours * MsPerHour <= nowMs - startMs < (d.hours + 1) * MsPerHour
      && 0 <= d.minutes <= 59
      && d.hours * 60 + d.minutes == (nowMs - startMs) / MsPerMinute
  {
    var diff := nowMs - startMs;
    var h, rem := diff / MsPerHour, diff % MsPerHour;
    var m, r2 := rem / MsPerMinute, rem % MsPerMinute;
    assert diff == MsPerHour * h + rem;
    assert rem == MsPerMinute * m + r2 && 0 <= m < 60;
    assert diff == MsPerMinute * (h * 60 + m) + r2;
  }

  /** For a start in the future the two numbers use different roundings: one millisecond
      too early shows as minus one hour and minus one minute. */
  lemma DurationOfNegativeDifference(startMs: int)
    ensures GetDuration(startMs, startMs - 1) == Duration(-1, -1)
    ensures GetDuration(startMs, startMs - 1).hours * 60 + GetDuration(startMs, startMs - 1).minutes
      != (-1) / MsPerMinute
  {
  }

  // ---------------------------------------------------------------------------
  // Consumption lines

  /** The amount a consumption line shows: its stored price times its quantity. */
  function LineSubtotal(line: ConsumptionLine): int {
    line.row.price * line.row.quantity
  }

  /** The sum of the subtotals the panel shows for a table. */
  function DisplayedTotal(lines: seq<ConsumptionLine>): int {
    if lines == [] then 0 else LineSubtotal(lines[0]) + DisplayedTotal(lines[1..])
  }

  /** When every consumption names an existing product, the product join drops nothing:
      line i is row i with its product's name, and the shown lines add up to
      Σ quantity × price of the rows joined. */
  lemma {:induction false} DisplayedTotalOfJoin(xs: seq<ConsumptionRow>, ps: seq<ProductRow>)
    requires forall i :: 0 <= i < |xs| ==> FindProduct(ps, xs[i].productId).Some?
    ensures |JoinProducts(xs, ps)| == |xs|
    ensures forall i :: 0 <= i < |xs| ==> JoinProducts(xs, ps)[i].row == xs[i]
    ensures forall i :: 0 <= i < |xs| ==>
      JoinProducts(xs, ps)[i].productName == FindProduct(ps, xs[i].productId).value.name
    ensures DisplayedTotal(JoinProducts(xs, ps)) == LineTotal(xs)
  {
    if xs != [] {
      DisplayedTotalOfJoin(xs[1..], ps);
      var p := FindProduct(ps, xs[0].productId).value;
      assert JoinProducts(xs, ps) == [ConsumptionLine(xs[0], p.name)] + JoinProducts(xs[1..], ps);
    }
  }

  /** Every consumption of a session is shown, in order, and the subtotals shown add up
      to the bill's `total_consumption`; the list is empty exactly when that total is NULL. */
  lemma DisplayedLinesMatchBill(cs: seq<ConsumptionRow>, ps: seq<ProductRow>, sid: int)
    requires forall i :: 0 <= i < |cs| ==> FindProduct(ps, cs[i].productId).Some?
    ensures |LinesFor(cs, ps, sid)| == |ForSession(cs, sid)|
    ensures forall i :: 0 <= i < |ForSession(cs, sid)| ==> LinesFor(cs, ps, sid)[i].row == ForSession(cs, sid)[i]
    ensures forall i :: 0 <= i < |ForSession(cs, sid)| ==>
      LineSubtotal(LinesFor(cs, ps, sid)[i]) == ForSession(cs, sid)[i].quantity * ForSession(cs, sid)[i].price
    ensures DisplayedTotal(LinesFor(cs, ps, sid)) == Ledger.ScanTotal(cs, sid)
    ensures SqlSum(cs, sid).None? <==> LinesFor(cs, ps, sid) == []
    ensures SqlSum(cs, sid).Some? ==> DisplayedTotal(LinesFor(cs, ps, sid)) == SqlSum(cs, sid).value
  {
    var mine := ForSession(cs, sid);
    forall i | 0 <= i < |mine| ensures FindProduct(ps, mine[i].productId).Some? {
      var j :| 0 <= j < |cs| && cs[j] == mine[i];
    }
    DisplayedTotalOfJoin(mine, ps);
    Ledger.LineTotalIsScan(cs, sid);
  }

  // ---------------------------------------------------------------------------
  // The request guards

  datatype StartRequest = StartRequest(tableId: int, billingMethodId: int)
  datatype AddRequest = AddRequest(sessionId: int, productId: int, quantity: int)

  /** `handleStartTable`: no request unless a billing method is selected. */
  function StartTableRequest(row: ActiveRow, selectedMethod: Option<int>): (r: Option<StartRequest>)
    ensures r.None? <==> !Truthy(selectedMethod)
    ensures r.Some? ==> r.value.tableId == row.table.id && Some(r.value.billingMethodId) == selectedMethod
  {
    if !Truthy(selectedMethod) then None else Some(StartRequest(row.table.id, selectedMethod.value))
  }

  /** `handleAddProduct`: no request unless a product is selected and the row has a
      session. The quantity is sent as entered. */
  function AddProductRequest(row: ActiveRow, selectedProduct: Option<int>, quantity: int): (r: Option<AddRequest>)
    ensures r.None? <==> !Truthy(selectedProduct) || !Truthy(row.sessionId)
    ensures r.Some? ==>
      && Some(r.value.sessionId) == row.sessionId && Some(r.value.productId) == selectedProduct
      && r.value.quantity == quantity
  {
    if !Truthy(selectedProduct) || !Truthy(row.sessionId) then None
    else Some(AddRequest(row.sessionId.value, selectedProduct.value, quantity))
  }

  /** `handleEndSession`: no request for a row without a session; otherwise the session id. */
  function CheckoutRequest(row: ActiveRow): (r: Option<int>)
    ensures r.None? <==> !Truthy(row.sessionId)
    ensures r.Some? ==> Some(r.value) == row.sessionId && r.value != 0
  {
    if Truthy(row.sessionId) then Some(row.sessionId.value) else None
  }

  /** The start route answers 400 unless both ids are truthy. */
  predicate StartRouteAccepts(req: StartRequest) {
    req.tableId != 0 && req.billingMethodId != 0
  }

  /** The add-product route answers 400 unless all three fields are truthy. */
  predicate AddRouteAccepts(req: AddRequest) {
    req.sessionId != 0 && req.productId != 0 && req.quantity != 0
  }

  /** The client's guard lets every start request through the route, except for a table
      whose id is 0, which autoincrement never assigns. */
  lemma StartRequestPassesRoute(row: ActiveRow, selectedMethod: Option<int>)
    requires StartTableRequest(row, selectedMethod).Some? && row.table.id != 0
    ensures StartRouteAccepts(StartTableRequest(row, selectedMethod).value)
  {
  }

  /** The client does not check the quantity: an add request is turned away by the route
      exactly when the quantity entered is 0, and a negative quantity gets through and
      lowers the session's total. */
  lemma AddRequestQuantity(row: ActiveRow, selectedProduct: Option<int>, quantity: int,
                           cs: seq<ConsumptionRow>, cid: int, price: int)
    requires AddProductRequest(row, selectedProduct, quantity).Some?
    ensures AddRouteAccepts(AddProductRequest(row, selectedProduct, quantity).value) <==> quantity != 0
    ensures quantity < 0 && price > 0 ==>
      var sid := row.sessionId.value;
      var c := ConsumptionRow(cid, sid, selectedProduct.value, quantity, price);
      SqlSum(cs + [c], sid).Some? && SqlSum(cs + [c], sid).value < LineTotal(ForSession(cs, sid))
  {
    var sid := row.sessionId.value;
    var c := ConsumptionRow(cid, sid, selectedProduct.value, quantity, price);
    Ledger.SqlSumAppend(cs, c, sid);
    if quantity < 0 && price > 0 {
      assert quantity * price < 0;
    }
  }

  // ---------------------------------------------------------------------------
  // Requests issued from a fresh listing

  lemma ListedTableIsStored(ts: seq<TableRow>, ss: seq<SessionRow>, bms: seq<BillingMethodRow>,
                            cs: seq<ConsumptionRow>, ps: seq<ProductRow>, tenant: int, i: nat)
    requires i < |ActiveTablesView(ts, ss, bms, cs, ps, tenant)|
    ensures ActiveTablesView(ts, ss, bms, cs, ps, tenant)[i].table in ts
    ensures ActiveTablesView(ts, ss, bms, cs, ps, tenant)[i].sessionId == JoinRows(ts, ss, bms, tenant)[i].sessionId
  {
    assert ActiveTablesView(ts, ss, bms, cs, ps, tenant)[i] == Attach(JoinRows(ts, ss, bms, tenant)[i], cs, ps);
  }

  /** A checkout issued from a row of the current listing names a stored session that is
      still active and belongs to that row's table. */
  lemma CheckoutFromListingFindsActiveSession(
    ts: seq<TableRow>, ss: seq<SessionRow>, bms: seq<BillingMethodRow>,
    cs: seq<ConsumptionRow>, ps: seq<ProductRow>, tenant: int, i: nat)
    requires DistinctSessionIds(ss)
    requires i < |ActiveTablesView(ts, ss, bms, cs, ps, tenant)|
    requires CheckoutRequest(ActiveTablesView(ts, ss, bms, cs, ps, tenant)[i]).Some?
    ensures var row := ActiveTablesView(ts, ss, bms, cs, ps, tenant)[i];
      var found := FindSession(ss, CheckoutRequest(row).value);
      found.Some? && found.value.status == Active && found.value.tableId == row.table.id
  {
    ListedTableIsStored(ts, ss, bms, cs, ps, tenant, i);
    ListedSessionsAreActive(ts, ss, bms, tenant);
    var j := JoinRows(ts, ss, bms, tenant);
    assert ActiveTablesView(ts, ss, bms, cs, ps, tenant)[i].table == j[i].table;
    var k :| 0 <= k < |ss| && ss[k].id == j[i].sessionId.value && ss[k].tableId == j[i].table.id && ss[k].status == Active;
    FindSessionUnique(ss, k);
  }

  /** So the dashboard's own checkout supplies the guard `endTableSession` lacks: on a
      coherent store it keeps the table/session invariant. */
  lemma CheckoutFromListingKeepsCoherent(
    ts: seq<TableRow>, ss: seq<SessionRow>, bms: seq<BillingMethodRow>,
    cs: seq<ConsumptionRow>, ps: seq<ProductRow>, tenant: int, i: nat, now: int)
    requires SessionInvariant.Coherent(ts, ss) && DistinctSessionIds(ss)
    requires i < |ActiveTablesView(ts, ss, bms, cs, ps, tenant)|
    requires CheckoutRequest(ActiveTablesView(ts, ss, bms, cs, ps, tenant)[i]).Some?
    ensures var sid := CheckoutRequest(ActiveTablesView(ts, ss, bms, cs, ps, tenant)[i]).value;
      FindSession(ss, sid).Some? && SessionInvariant.Coherent(
        SetTableStatus(ts, FindSession(ss, sid).value.tableId, Idle, now), CompleteSession(ss, sid, now))
  {
    CheckoutFromListingFindsActiveSession(ts, ss, bms, cs, ps, tenant, i);
    var sid := CheckoutRequest(ActiveTablesView(ts, ss, bms, cs, ps, tenant)[i]).value;
    SessionInvariant.EndActiveSessionKeepsCoherent(ts, ss, sid, now);
  }

  /** The start button is drawn only on idle rows. A start issued from such a row of the
      current listing supplies the guard `startTableSession` lacks: on a coherent store
      with unique table ids it keeps the invariant. */
  lemma StartFromIdleRowKeepsCoherent(
    ts: seq<TableRow>, ss: seq<SessionRow>, bms: seq<BillingMethodRow>,
    cs: seq<ConsumptionRow>, ps: seq<ProductRow>, tenant: int, i: nat,
    selectedMethod: Option<int>, sid: int, now: int)
    requires SessionInvariant.Coherent(ts, ss) && DistinctTableIds(ts)
    requires i < |ActiveTablesView(ts, ss, bms, cs, ps, tenant)|
    requires ActiveTablesView(ts, ss, bms, cs, ps, tenant)[i].table.status == Idle
    requires StartTableRequest(ActiveTablesView(ts, ss, bms, cs, ps, tenant)[i], selectedMethod).Some?
    ensures var req := StartTableRequest(ActiveTablesView(ts, ss, bms, cs, ps, tenant)[i], selectedMethod).value;
      SessionInvariant.Coherent(
        SetTableStatus(ts, req.tableId, InUse, now), ss + [NewSession(sid, req.tableId, req.billingMethodId, now)])
  {
    ListedTableIsStored(ts, ss, bms, cs, ps, tenant, i);
    var t := ActiveTablesView(ts, ss, bms, cs, ps, tenant)[i].table;
    var req := StartTableRequest(ActiveTablesView(ts, ss, bms, cs, ps, tenant)[i], selectedMethod).value;
    var k :| 0 <= k < |ts| && ts[k] == t;
    assert SessionInvariant.TableIdle(ts, t.id);
    SessionInvariant.StartOnIdleTableKeepsCoherent(ts, ss, t.id, req.billingMethodId, now, sid);
  }

  // ---------------------------------------------------------------------------
  // Loading

  /** A parsed JSON body: an array of rows, or anything else (such as the routes'
      `{ error }` object on failure). */
  datatype Json<T> = JsonArray(items: seq<T>) | JsonOther

  /** One `fetch` plus `response.json()`: a body, or a rejection (network failure or a
      body that is not JSON). */
  datatype Fetched<T> = Received(json: Json<T>) | Failed

  /** `Array.isArray(data) ? data : []`. */
  function ArrayOrEmpty<T>(j: Json<T>): seq<T> {
    match j
    case JsonArray(items) => items
    case JsonOther => []
  }

  /** The three lists the panel holds once `loadData` has finished. */
  datatype Loaded = Loaded(tables: seq<ActiveRow>, billingMethods: seq<BillingMethodRow>, products: seq<ProductRow>)

  /** `loadData`: fetch the three lists in turn; a rejection anywhere jumps to the
      handler, which empties all three, even those already set. */
  function LoadData(tables: Fetched<ActiveRow>, methods: Fetched<BillingMethodRow>, products: Fetched<ProductRow>): (r: Loaded)
    ensures tables.Failed? || methods.Failed? || products.Failed? ==> r == Loaded([], [], [])
    ensures tables.Received? && methods.Received? && products.Received? ==>
      && r.tables == (if tables.json.JsonArray? then tables.json.items else [])
      && r.billingMethods == (if methods.json.JsonArray? then methods.json.items else [])
      && r.products == (if products.json.JsonArray? then products.json.items else [])
  {
    match tables
    case Failed => Loaded([], [], [])
    case Received(t) =>
      match methods
      case Failed => Loaded([], [], [])
      case Received(m) =>
        match products
        case Failed => Loaded([], [], [])
        case Received(p) => Loaded(ArrayOrEmpty(t), ArrayOrEmpty(m), ArrayOrEmpty(p))
  }

  /** When every route answers with its query's rows, the panel holds exactly the store's
      listing and the tenant's catalogue; when one route answers with an error object,
      only its own list is emptied. */
  lemma LoadDataFromRoutes(
    ts: seq<TableRow>, ss: seq<SessionRow>, bms: seq<BillingMethodRow>,
    cs: seq<ConsumptionRow>, ps: seq<ProductRow>, tenant: int)
    ensures var view := ActiveTablesView(ts, ss, bms, cs, ps, tenant);
      var ms := MethodsOf(bms, tenant);
      var pr := ProductsOf(ps, tenant);
      && LoadData(Received(JsonArray(view)), Received(JsonArray(ms)), Received(JsonArray(pr))) == Loaded(view, ms, pr)
      && LoadData(Received(JsonOther), Received(JsonArray(ms)), Received(JsonArray(pr))) == Loaded([], ms, pr)
      && LoadData(Received(JsonArray(view)), Received(JsonOther), Received(JsonArray(pr))) == Loaded(view, [], pr)
      && LoadData(Received(JsonArray(view)), Received(JsonArray(ms)), Received(JsonOther)) == Loaded(view, ms, [])
  {
  }
}
