/** The rows of the table-session store (src/lib/db.ts) and the SQL its operations run,
    stated as functions over relations. A relation is a sequence of rows in rowid order;
    a query scans it in that order. */
module DbRows {
  import opened Common
  import opened Seqs

  datatype TableKind = PrivateRoom | Hall
  datatype TableStatus = Idle | InUse

  /** A row of `tables`; `updatedAt` is the `updated_at` column the store stamps. */
  datatype TableRow = TableRow(
    id: int, tenantId: int, name: string, kind: TableKind, status: TableStatus, updatedAt: int)

  datatype SessionStatus = Active | Completed

  /** A row of `table_sessions`; times are instants on the store's clock. */
  datatype SessionRow = SessionRow(
    id: int, tableId: int, billingMethodId: int, startTime: int,
    endTime: Option<int>, status: SessionStatus)

  datatype BillingType = Hourly | Fixed | Package

  /** A row of `billing_methods`: one flat row whose package columns may be NULL. */
  datatype BillingMethodRow = BillingMethodRow(
    id: int, tenantId: int, name: string, kind: BillingType, basePrice: int,
    packageHours: Option<int>, packagePrice: Option<int>, extraHourPrice: Option<int>)

  /** A row of `products`. */
  datatype ProductRow = ProductRow(id: int, tenantId: int, name: string, price: int, category: string)

  /** A row of `consumptions`: `price` is the product's price copied at insertion. */
  datatype ConsumptionRow = ConsumptionRow(
    id: int, sessionId: int, productId: int, quantity: int, price: int)

  /** The errors the store's operations throw. */
  datatype DbError = ProductNotFound | SessionNotFound

  /** The session row `startTableSession` inserts: active, started `now`, no end time. */
  function NewSession(id: int, tableId: int, billingMethodId: int, now: int): SessionRow {
    SessionRow(id, tableId, billingMethodId, now, None, Active)
  }

  // ---------------------------------------------------------------------------
  // Keyed lookups and updates

  function HasSessionId(sid: int): SessionRow -> bool { (s: SessionRow) => s.id == sid }
  function HasProductId(pid: int): ProductRow -> bool { (p: ProductRow) => p.id == pid }
  function HasMethodId(mid: int): BillingMethodRow -> bool { (m: BillingMethodRow) => m.id == mid }

  /** `SELECT ... FROM table_sessions WHERE id = ?`, first row. */
  function FindSession(ss: seq<SessionRow>, sid: int): Option<SessionRow> {
    First(ss, HasSessionId(sid))
  }

  /** `SELECT price FROM products WHERE id = ?`, first row. */
  function FindProduct(ps: seq<ProductRow>, pid: int): Option<ProductRow> {
    First(ps, HasProductId(pid))
  }

  /** The billing-method row a join on `billing_method_id` meets. */
  function FindMethod(bms: seq<BillingMethodRow>, mid: int): Option<BillingMethodRow> {
    First(bms, HasMethodId(mid))
  }

  /** `UPDATE tables SET status = st, updated_at = now WHERE id = tid`. */
  function SetTableStatus(ts: seq<TableRow>, tid: int, st: TableStatus, now: int): seq<TableRow> {
    seq(|ts|, i requires 0 <= i < |ts| =>
      if ts[i].id == tid then ts[i].(status := st, updatedAt := now) else ts[i])
  }

  /** `UPDATE table_sessions SET end_time = now, status = 'completed' WHERE id = sid`. */
  function CompleteSession(ss: seq<SessionRow>, sid: int, now: int): seq<SessionRow> {
    seq(|ss|, i requires 0 <= i < |ss| =>
      if ss[i].id == sid then ss[i].(endTime := Some(now), status := Completed) else ss[i])
  }

  /** Primary keys: no two rows share an id. */
  predicate DistinctTableIds(ts: seq<TableRow>) {
    forall i, j :: 0 <= i < j < |ts| ==> ts[i].id != ts[j].id
  }

  predicate DistinctSessionIds(ss: seq<SessionRow>) {
    forall i, j :: 0 <= i < j < |ss| ==> ss[i].id != ss[j].id
  }

  predicate DistinctProductIds(ps: seq<ProductRow>) {
    forall i, j :: 0 <= i < j < |ps| ==> ps[i].id != ps[j].id
  }

  predicate DistinctMethodIds(bms: seq<BillingMethodRow>) {
    forall i, j :: 0 <= i < j < |bms| ==> bms[i].id != bms[j].id
  }

  predicate DistinctConsumptionIds(cs: seq<ConsumptionRow>) {
    forall i, j :: 0 <= i < j < |cs| ==> cs[i].id != cs[j].id
  }

  // ---------------------------------------------------------------------------
  // Active sessions of a table

  function ActiveOn(tid: int): SessionRow -> bool { (s: SessionRow) => s.tableId == tid && s.status == Active }

  /** The active sessions of table `tid`, in rowid order. */
  function ActiveOf(ss: seq<SessionRow>, tid: int): seq<SessionRow> {
    Filter(ss, ActiveOn(tid))
  }

  function CountActive(ss: seq<SessionRow>, tid: int): nat {
    |ActiveOf(ss, tid)|
  }

  // ---------------------------------------------------------------------------
  // The consumption ledger and the bill

  function OfSession(sid: int): ConsumptionRow -> bool { (c: ConsumptionRow) => c.sessionId == sid }

  /** `SELECT ... FROM consumptions WHERE table_session_id = sid`. */
  function ForSession(cs: seq<ConsumptionRow>, sid: int): seq<ConsumptionRow> {
    Filter(cs, OfSession(sid))
  }

  /** Σ quantity × price over the given rows. */
  function LineTotal(cs: seq<ConsumptionRow>): int {
    if cs == [] then 0 else cs[0].quantity * cs[0].price + LineTotal(cs[1..])
  }

  /** `SELECT SUM(quantity * price) FROM consumptions WHERE table_session_id = sid`:
      SQL's SUM is NULL over no rows. */
  function SqlSum(cs: seq<ConsumptionRow>, sid: int): Option<int> {
    var mine := ForSession(cs, sid);
    if mine == [] then None else Some(LineTotal(mine))
  }

  /** The row `endTableSession` returns: the session's columns, the billing method's
      pricing columns, and the consumption total. */
  datatype Bill = Bill(
    session: SessionRow, billingType: BillingType, basePrice: int,
    packageHours: Option<int>, packagePrice: Option<int>, extraHourPrice: Option<int>,
    totalConsumption: Option<int>)

  /** The bill query: the session joined (inner join) with its billing method. `None` is
      the NULL `.first()` yields when either row is missing. */
  function BillFor(ss: seq<SessionRow>, bms: seq<BillingMethodRow>, cs: seq<ConsumptionRow>, sid: int): Option<Bill> {
    match FindSession(ss, sid)
    case None => None
    case Some(s) =>
      match FindMethod(bms, s.billingMethodId)
      case None => None
      case Some(m) =>
        Some(Bill(s, m.kind, m.basePrice, m.packageHours, m.packagePrice, m.extraHourPrice, SqlSum(cs, sid)))
  }

  // ---------------------------------------------------------------------------
  // The active-tables listing

  /** A consumption row joined with its product's name. */
  datatype ConsumptionLine = ConsumptionLine(row: ConsumptionRow, productName: string)

  /** A row of the listing: the table, the LEFT-JOINed active session and billing method
      (absent when NULL), and the consumptions attached afterwards. */
  datatype ActiveRow = ActiveRow(
    table: TableRow, sessionId: Option<int>, startTime: Option<int>,
    billing: Option<BillingMethodRow>, consumptions: seq<ConsumptionLine>)

  /** Truthiness of a nullable number in JavaScript: NULL and 0 are false. */
  predicate Truthy(v: Option<int>) {
    v.Some? && v.value != 0
  }

  /** `JOIN products p ON c.product_id = p.id`: a row whose product is missing drops out. */
  function JoinProducts(cs: seq<ConsumptionRow>, ps: seq<ProductRow>): seq<ConsumptionLine> {
    if cs == [] then []
    else
      (match FindProduct(ps, cs[0].productId)
       case Some(p) => [ConsumptionLine(cs[0], p.name)]
       case None => [])
      + JoinProducts(cs[1..], ps)
  }

  /** The per-row consumptions query of `getActiveTables`. */
  function LinesFor(cs: seq<ConsumptionRow>, ps: seq<ProductRow>, sid: int): seq<ConsumptionLine> {
    JoinProducts(ForSession(cs, sid), ps)
  }

  /** The LEFT JOIN for one table: one row per active session, or one row of NULLs. */
  function JoinTable(t: TableRow, ss: seq<SessionRow>, bms: seq<BillingMethodRow>): (r: seq<ActiveRow>)
    ensures |r| > 0
    ensures forall i :: 0 <= i < |r| ==> r[i].table == t
  {
    var act := ActiveOf(ss, t.id);
    if act == [] then [ActiveRow(t, None, None, None, [])]
    else
      seq(|act|, i requires 0 <= i < |act| =>
        ActiveRow(t, Some(act[i].id), Some(act[i].startTime), FindMethod(bms, act[i].billingMethodId), []))
  }

  /** The listing query `... FROM tables t LEFT JOIN table_sessions ... WHERE t.tenant_id = ?`. */
  function JoinRows(ts: seq<TableRow>, ss: seq<SessionRow>, bms: seq<BillingMethodRow>, tenant: int): (r: seq<ActiveRow>)
    ensures forall i :: 0 <= i < |r| ==> r[i].table in ts && r[i].table.tenantId == tenant
    ensures forall i :: 0 <= i < |r| ==> r[i].consumptions == []
  {
    if ts == [] then []
    else (if ts[0].tenantId == tenant then JoinTable(ts[0], ss, bms) else []) + JoinRows(ts[1..], ss, bms, tenant)
  }

  /** The loop body of `getActiveTables`: attach the session's consumptions, or none. */
  function Attach(row: ActiveRow, cs: seq<ConsumptionRow>, ps: seq<ProductRow>): ActiveRow {
    row.(consumptions := if Truthy(row.sessionId) then LinesFor(cs, ps, row.sessionId.value) else [])
  }

  /** What `getActiveTables(tenant)` returns. */
  function ActiveTablesView(
    ts: seq<TableRow>, ss: seq<SessionRow>, bms: seq<BillingMethodRow>,
    cs: seq<ConsumptionRow>, ps: seq<ProductRow>, tenant: int): seq<ActiveRow>
  {
    var j := JoinRows(ts, ss, bms, tenant);
    seq(|j|, i requires 0 <= i < |j| => Attach(j[i], cs, ps))
  }

  // ---------------------------------------------------------------------------
  // Facts the store and the dashboard rely on

  /** With unique ids, the lookup finds the one row carrying the id. */
  lemma {:induction false} FindSessionUnique(ss: seq<SessionRow>, k: nat)
    requires DistinctSessionIds(ss) && k < |ss|
    ensures FindSession(ss, ss[k].id) == Some(ss[k])
  {
    if k > 0 {
      assert ss[0].id != ss[k].id;
      var rest := ss[1..];
      assert DistinctSessionIds(rest) by {
        forall a, b | 0 <= a < b < |rest| ensures rest[a].id != rest[b].id {
          assert rest[a] == ss[a + 1] && rest[b] == ss[b + 1];
        }
      }
      assert rest[k - 1] == ss[k];
      FindSessionUnique(rest, k - 1);
    }
  }

  /** Every session the listing shows is a stored session, active, on that row's table. */
  lemma {:induction false} ListedSessionsAreActive(ts: seq<TableRow>, ss: seq<SessionRow>, bms: seq<BillingMethodRow>, tenant: int)
    ensures forall i :: 0 <= i < |JoinRows(ts, ss, bms, tenant)| && JoinRows(ts, ss, bms, tenant)[i].sessionId.Some? ==>
      exists k :: (0 <= k < |ss| && ss[k].id == JoinRows(ts, ss, bms, tenant)[i].sessionId.value
        && ss[k].tableId == JoinRows(ts, ss, bms, tenant)[i].table.id && ss[k].status == Active)
  {
    if ts != [] {
      ListedSessionsAreActive(ts[1..], ss, bms, tenant);
      var head := if ts[0].tenantId == tenant then JoinTable(ts[0], ss, bms) else [];
      assert JoinRows(ts, ss, bms, tenant) == head + JoinRows(ts[1..], ss, bms, tenant);
      forall i | 0 <= i < |head| && head[i].sessionId.Some?
        ensures exists k :: (0 <= k < |ss| && ss[k].id == head[i].sessionId.value
          && ss[k].tableId == head[i].table.id && ss[k].status == Active)
      {
        var act := ActiveOf(ss, ts[0].id);
        assert head[i].sessionId.value == act[i].id && head[i].table == ts[0];
        assert act[i] in ss && ActiveOn(ts[0].id)(act[i]);
      }
    }
  }

  /** Some row of `rows` is about table `t`. */
  predicate HasRowFor(rows: seq<ActiveRow>, t: TableRow) {
    exists i :: 0 <= i < |rows| && rows[i].table == t
  }

  lemma HasRowForConcat(a: seq<ActiveRow>, b: seq<ActiveRow>, t: TableRow)
    requires HasRowFor(a, t) || HasRowFor(b, t)
    ensures HasRowFor(a + b, t)
  {
    if HasRowFor(a, t) {
      var i :| 0 <= i < |a| && a[i].table == t;
      assert (a + b)[i] == a[i];
    } else {
      var j :| 0 <= j < |b| && b[j].table == t;
      assert (a + b)[|a| + j] == b[j];
    }
  }

  /** The LEFT JOIN keeps every table of the tenant: an idle table still gets a row. */
  lemma {:induction false} JoinRowsKeepsTable(ts: seq<TableRow>, ss: seq<SessionRow>, bms: seq<BillingMethodRow>, tenant: int, k: nat)
    requires k < |ts| && ts[k].tenantId == tenant
    ensures HasRowFor(JoinRows(ts, ss, bms, tenant), ts[k])
  {
    var tail := JoinRows(ts[1..], ss, bms, tenant);
    if k == 0 {
      var head := JoinTable(ts[0], ss, bms);
      assert JoinRows(ts, ss, bms, tenant) == head + tail;
      assert head[0].table == ts[0];
      HasRowForConcat(head, tail, ts[0]);
    } else {
      assert ts[1..][k - 1] == ts[k];
      JoinRowsKeepsTable(ts[1..], ss, bms, tenant, k - 1);
      var head := if ts[0].tenantId == tenant then JoinTable(ts[0], ss, bms) else [];
      assert JoinRows(ts, ss, bms, tenant) == head + tail;
      HasRowForConcat(head, tail, ts[k]);
    }
  }

  lemma JoinRowsKeepsEveryTable(ts: seq<TableRow>, ss: seq<SessionRow>, bms: seq<BillingMethodRow>, tenant: int)
    ensures forall k :: 0 <= k < |ts| && ts[k].tenantId == tenant ==> HasRowFor(JoinRows(ts, ss, bms, tenant), ts[k])
  {
    forall k | 0 <= k < |ts| && ts[k].tenantId == tenant
      ensures HasRowFor(JoinRows(ts, ss, bms, tenant), ts[k])
    {
      JoinRowsKeepsTable(ts, ss, bms, tenant, k);
    }
  }

  /** Attaching consumptions keeps the rows' tables, so the listing too has a row for every
      table of the tenant. */
  lemma ViewKeepsEveryTable(
    ts: seq<TableRow>, ss: seq<SessionRow>, bms: seq<BillingMethodRow>,
    cs: seq<ConsumptionRow>, ps: seq<ProductRow>, tenant: int)
    ensures forall k :: 0 <= k < |ts| && ts[k].tenantId == tenant ==> HasRowFor(ActiveTablesView(ts, ss, bms, cs, ps, tenant), ts[k])
  {
    var j := JoinRows(ts, ss, bms, tenant);
    var view := ActiveTablesView(ts, ss, bms, cs, ps, tenant);
    JoinRowsKeepsEveryTable(ts, ss, bms, tenant);
    forall k | 0 <= k < |ts| && ts[k].tenantId == tenant
      ensures HasRowFor(view, ts[k])
    {
      var i :| 0 <= i < |j| && j[i].table == ts[k];
      assert view[i].table == j[i].table;
    }
  }

  // ---------------------------------------------------------------------------
  // The per-tenant catalogue queries

  function MethodOfTenant(tenant: int): BillingMethodRow -> bool { (m: BillingMethodRow) => m.tenantId == tenant }
  function ProductOfTenant(tenant: int): ProductRow -> bool { (p: ProductRow) => p.tenantId == tenant }

  /** `getBillingMethods`: `SELECT * FROM billing_methods WHERE tenant_id = ?`. */
  function MethodsOf(bms: seq<BillingMethodRow>, tenant: int): (r: seq<BillingMethodRow>)
    ensures forall i :: 0 <= i < |r| ==> r[i] in bms && r[i].tenantId == tenant
    ensures forall i :: 0 <= i < |bms| && bms[i].tenantId == tenant ==> bms[i] in r
  {
    Filter(bms, MethodOfTenant(tenant))
  }

  /** `getProducts`: `SELECT * FROM products WHERE tenant_id = ?`. */
  function ProductsOf(ps: seq<ProductRow>, tenant: int): (r: seq<ProductRow>)
    ensures forall i :: 0 <= i < |r| ==> r[i] in ps && r[i].tenantId == tenant
    ensures forall i :: 0 <= i < |ps| && ps[i].tenantId == tenant ==> ps[i] in r
  {
    Filter(ps, ProductOfTenant(tenant))
  }
}
