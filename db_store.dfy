/** The table-session store of src/lib/db.ts as a mutable object: each relation is a field
    that the operations' INSERT and UPDATE statements reassign, one statement at a time,
    with counters standing in for the autoincrement ids. `now` stands in for
    `datetime('now')`. */
module Db {
  import opened Common
  import opened Seqs
  import opened DbRows

  class Store {
    var tables: seq<TableRow>
    var sessions: seq<SessionRow>
    var consumptions: seq<ConsumptionRow>
    var products: seq<ProductRow>
    var billingMethods: seq<BillingMethodRow>
    var nextSessionId: int
    var nextConsumptionId: int

    /** What the schema guarantees: primary keys are unique, autoincrement ids are
        positive and below the next id, and every consumption names an existing product
        (the only rows `addConsumption` inserts). */
    ghost predicate Valid()
      reads this
    {
      && DistinctTableIds(tables) && DistinctProductIds(products) && DistinctMethodIds(billingMethods)
      && nextSessionId >= 1 && nextConsumptionId >= 1
      && DistinctSessionIds(sessions)
      && (forall i :: 0 <= i < |sessions| ==> 1 <= sessions[i].id < nextSessionId)
      && DistinctConsumptionIds(consumptions)
      && (forall i :: 0 <= i < |consumptions| ==> 1 <= consumptions[i].id < nextConsumptionId)
      && (forall i :: 0 <= i < |consumptions| ==> FindProduct(products, consumptions[i].productId).Some?)
    }

    /** A store holding the administratively created tables, products and billing
        methods, and no sessions or consumptions yet. */
    constructor (tables0: seq<TableRow>, products0: seq<ProductRow>, methods0: seq<BillingMethodRow>)
      requires DistinctTableIds(tables0) && DistinctProductIds(products0) && DistinctMethodIds(methods0)
      ensures Valid()
      ensures tables == tables0 && products == products0 && billingMethods == methods0
      ensures sessions == [] && consumptions == []
    {
      tables, products, billingMethods := tables0, products0, methods0;
      sessions, consumptions := [], [];
      nextSessionId, nextConsumptionId := 1, 1;
    }

    /** `startTableSession`: insert an active session for the table, then mark the table
        in use. Neither statement looks at the table's current status. */
    method StartTableSession(tableId: int, billingMethodId: int, now: int) returns (sessionId: int)
      requires Valid()
      modifies this
      ensures Valid()
      ensures sessionId == old(nextSessionId) && nextSessionId == sessionId + 1
      ensures sessions == old(sessions) + [NewSession(sessionId, tableId, billingMethodId, now)]
      ensures tables == SetTableStatus(old(tables), tableId, InUse, now)
      ensures forall i :: 0 <= i < |tables| && tables[i].id == tableId ==> tables[i].status == InUse
      ensures forall i :: 0 <= i < |tables| && tables[i].id != tableId ==> tables[i] == old(tables)[i]
      ensures consumptions == old(consumptions) && products == old(products)
      ensures billingMethods == old(billingMethods) && nextConsumptionId == old(nextConsumptionId)
    {
      // INSERT INTO table_sessions (table_id, billing_method_id, start_time, status)
      sessionId := nextSessionId;
      sessions := sessions + [NewSession(sessionId, tableId, billingMethodId, now)];
      nextSessionId := nextSessionId + 1;
      // UPDATE tables SET status = 'in_use' WHERE id = ?
      tables := SetTableStatus(tables, tableId, InUse, now);
    }

    /** `addConsumption`: read the product's price, then insert a consumption row carrying
        that price. The session and the quantity are taken as given. */
    method AddConsumption(sessionId: int, productId: int, quantity: int) returns (r: Result<int, DbError>)
      requires Valid()
      modifies this
      ensures Valid()
      ensures FindProduct(old(products), productId).None? ==> r == Err(ProductNotFound) && unchanged(this)
      ensures FindProduct(old(products), productId).Some? ==>
        && r == Ok(old(nextConsumptionId))
        && nextConsumptionId == old(nextConsumptionId) + 1
        && consumptions == old(consumptions) +
             [ConsumptionRow(r.value, sessionId, productId, quantity, FindProduct(old(products), productId).value.price)]
      ensures tables == old(tables) && sessions == old(sessions) && products == old(products)
      ensures billingMethods == old(billingMethods) && nextSessionId == old(nextSessionId)
    {
      // SELECT price FROM products WHERE id = ?
      var product := FindProduct(products, productId);
      if product.None? {
        return Err(ProductNotFound);
      }
      // INSERT INTO consumptions (table_session_id, product_id, quantity, price)
      var id := nextConsumptionId;
      consumptions := consumptions + [ConsumptionRow(id, sessionId, productId, quantity, product.value.price)];
      nextConsumptionId := nextConsumptionId + 1;
      r := Ok(id);
    }

    /** `endTableSession`: look the session up, complete it, idle its table, and read the
        bill back. The session's current status is never consulted. */
    method EndTableSession(sessionId: int, now: int) returns (r: Result<Option<Bill>, DbError>)
      requires Valid()
      modifies this
      ensures Valid()
      ensures FindSession(old(sessions), sessionId).None? ==> r == Err(SessionNotFound) && unchanged(this)
      ensures FindSession(old(sessions), sessionId).Some? ==>
        && sessions == CompleteSession(old(sessions), sessionId, now)
        && tables == SetTableStatus(old(tables), FindSession(old(sessions), sessionId).value.tableId, Idle, now)
        && r == Ok(BillFor(sessions, billingMethods, consumptions, sessionId))
      ensures consumptions == old(consumptions) && products == old(products) && billingMethods == old(billingMethods)
      ensures nextSessionId == old(nextSessionId) && nextConsumptionId == old(nextConsumptionId)
    {
      // SELECT table_id FROM table_sessions WHERE id = ?
      var session := FindSession(sessions, sessionId);
      if session.None? {
        return Err(SessionNotFound);
      }
      // UPDATE table_sessions SET end_time = ?, status = 'completed' WHERE id = ?
      sessions := CompleteSession(sessions, sessionId, now);
      // UPDATE tables SET status = 'idle' WHERE id = ?
      tables := SetTableStatus(tables, session.value.tableId, Idle, now);
      // SELECT ts.*, bm.*, (SELECT SUM(quantity * price) ...) ... WHERE ts.id = ?
      r := Ok(BillFor(sessions, billingMethods, consumptions, sessionId));
    }

    /** `getActiveTables`: run the LEFT JOIN listing, then walk its rows attaching each
        active session's consumptions (an empty list where there is no session). */
    method GetActiveTables(tenantId: int) returns (rows: seq<ActiveRow>)
      requires Valid()
      ensures rows == ActiveTablesView(tables, sessions, billingMethods, consumptions, products, tenantId)
      ensures forall i :: 0 <= i < |rows| ==> rows[i].table in tables && rows[i].table.tenantId == tenantId
      ensures forall k :: 0 <= k < |tables| && tables[k].tenantId == tenantId ==> HasRowFor(rows, tables[k])
      ensures forall i :: 0 <= i < |rows| && rows[i].sessionId.None? ==> rows[i].consumptions == []
      ensures forall i :: 0 <= i < |rows| && rows[i].sessionId.Some? ==>
        rows[i].consumptions == LinesFor(consumptions, products, rows[i].sessionId.value)
    {
      rows := JoinRows(tables, sessions, billingMethods, tenantId);
      ghost var joined := rows;
      var i := 0;
      while i < |rows|
        invariant 0 <= i <= |rows| == |joined|
        invariant forall k :: 0 <= k < i ==> rows[k] == Attach(joined[k], consumptions, products)
        invariant forall k :: i <= k < |rows| ==> rows[k] == joined[k]
      {
        var row := rows[i];
        if Truthy(row.sessionId) {
          rows := rows[i := row.(consumptions := LinesFor(consumptions, products, row.sessionId.value))];
        } else {
          rows := rows[i := row.(consumptions := [])];
        }
        i := i + 1;
      }
      ListedSessionsAreActive(tables, sessions, billingMethods, tenantId);
      forall i | 0 <= i < |rows| && rows[i].sessionId.Some?
        ensures rows[i].consumptions == LinesFor(consumptions, products, rows[i].sessionId.value)
      {
        assert rows[i] == Attach(joined[i], consumptions, products);
        var k :| 0 <= k < |sessions| && sessions[k].id == joined[i].sessionId.value
          && sessions[k].tableId == joined[i].table.id && sessions[k].status == Active;
      }
      assert rows == ActiveTablesView(tables, sessions, billingMethods, consumptions, products, tenantId);
      ViewKeepsEveryTable(tables, sessions, billingMethods, consumptions, products, tenantId);
    }
  }
}
