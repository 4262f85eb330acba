/** The intended invariant of the table-session store: a table is `in_use` exactly when it
    has an active session, and it never has more than one. The operations of
    src/lib/db.ts do not check it. The lemmas here show that starting a session keeps it
    on an idle table and breaks it on a table in use; that ending an active session keeps
    it, and so does ending a completed one whose table is still idle, while ending a
    completed session whose table has been restarted breaks it. Adding a consumption
    touches neither tables nor sessions, so it does not affect the invariant. */
module SessionInvariant {
  import opened Common
  import opened Seqs
  import opened DbRows
  import Ledger

  /** Table status mirrors the existence of its single active session. */
  predicate Coherent(ts: seq<TableRow>, ss: seq<SessionRow>) {
    forall i :: 0 <= i < |ts| ==>
      CountActive(ss, ts[i].id) <= 1 && (ts[i].status == InUse <==> CountActive(ss, ts[i].id) == 1)
  }

  /** Every row of table `tid` is idle. */
  predicate TableIdle(ts: seq<TableRow>, tid: int) {
    forall i :: 0 <= i < |ts| && ts[i].id == tid ==> ts[i].status == Idle
  }

  lemma CountActiveSnoc(ss: seq<SessionRow>, x: SessionRow, tid: int)
    ensures CountActive(ss + [x], tid) ==
      CountActive(ss, tid) + (if x.tableId == tid && x.status == Active then 1 else 0)
  {
    FilterSnoc(ss, x, ActiveOn(tid));
  }

  /** Completing session `sid` removes it from its table's active count and from no other. */
  lemma {:induction false} CountActiveAfterComplete(ss: seq<SessionRow>, sid: int, now: int, tid: int)
    requires DistinctSessionIds(ss) && FindSession(ss, sid).Some?
    ensures var s := FindSession(ss, sid).value;
      CountActive(CompleteSession(ss, sid, now), tid) + (if s.tableId == tid && s.status == Active then 1 else 0)
        == CountActive(ss, tid)
  {
    var done := CompleteSession(ss, sid, now);
    var rest := ss[1..];
    assert done[1..] == CompleteSession(rest, sid, now);
    if ss[0].id == sid {
      assert CompleteSession(rest, sid, now) == rest by {
        forall k | 0 <= k < |rest| ensures rest[k].id != sid {
          assert ss[k + 1] == rest[k];
        }
      }
    } else {
      assert DistinctSessionIds(rest) by {
        forall a, b | 0 <= a < b < |rest| ensures rest[a].id != rest[b].id {
          assert rest[a] == ss[a + 1] && rest[b] == ss[b + 1];
        }
      }
      CountActiveAfterComplete(rest, sid, now, tid);
    }
  }

  /** With the guard the source lacks (the table is idle), starting a session keeps the
      invariant. */
  lemma StartOnIdleTableKeepsCoherent(ts: seq<TableRow>, ss: seq<SessionRow>, tid: int, bm: int, now: int, sid: int)
    requires Coherent(ts, ss) && TableIdle(ts, tid)
    ensures Coherent(SetTableStatus(ts, tid, InUse, now), ss + [NewSession(sid, tid, bm, now)])
  {
    var ts', ss' := SetTableStatus(ts, tid, InUse, now), ss + [NewSession(sid, tid, bm, now)];
    forall i | 0 <= i < |ts'|
      ensures CountActive(ss', ts'[i].id) <= 1 && (ts'[i].status == InUse <==> CountActive(ss', ts'[i].id) == 1)
    {
      CountActiveSnoc(ss, NewSession(sid, tid, bm, now), ts[i].id);
    }
  }

  /** Without that guard, starting a session on a table that is already in use leaves it
      with two active sessions, and the active-tables listing then shows it twice. */
  lemma StartOnBusyTableBreaksCoherent(
    ts: seq<TableRow>, ss: seq<SessionRow>, bms: seq<BillingMethodRow>, tid: int, bm: int, now: int, sid: int, k: nat)
    requires Coherent(ts, ss) && k < |ts| && ts[k].id == tid && ts[k].status == InUse
    ensures CountActive(ss + [NewSession(sid, tid, bm, now)], tid) == 2
    ensures !Coherent(SetTableStatus(ts, tid, InUse, now), ss + [NewSession(sid, tid, bm, now)])
    ensures |JoinTable(ts[k], ss + [NewSession(sid, tid, bm, now)], bms)| == 2
  {
    CountActiveSnoc(ss, NewSession(sid, tid, bm, now), tid);
    assert SetTableStatus(ts, tid, InUse, now)[k].id == tid;
  }

  /** With the guard the source lacks (the session is still active), ending a session
      keeps the invariant. */
  lemma EndActiveSessionKeepsCoherent(ts: seq<TableRow>, ss: seq<SessionRow>, sid: int, now: int)
    requires Coherent(ts, ss) && DistinctSessionIds(ss)
    requires FindSession(ss, sid).Some? && FindSession(ss, sid).value.status == Active
    ensures Coherent(SetTableStatus(ts, FindSession(ss, sid).value.tableId, Idle, now), CompleteSession(ss, sid, now))
  {
    var s := FindSession(ss, sid).value;
    var ts', ss' := SetTableStatus(ts, s.tableId, Idle, now), CompleteSession(ss, sid, now);
    forall i | 0 <= i < |ts'|
      ensures CountActive(ss', ts'[i].id) <= 1 && (ts'[i].status == InUse <==> CountActive(ss', ts'[i].id) == 1)
    {
      CountActiveAfterComplete(ss, sid, now, ts[i].id);
    }
  }

  /** Without that guard, ending a session that was already completed idles its table even
      when the table has since been given a new active session. */
  lemma EndCompletedSessionBreaksCoherent(ts: seq<TableRow>, ss: seq<SessionRow>, sid: int, now: int, k: nat)
    requires Coherent(ts, ss) && DistinctSessionIds(ss)
    requires FindSession(ss, sid).Some? && FindSession(ss, sid).value.status == Completed
    requires k < |ts| && ts[k].id == FindSession(ss, sid).value.tableId && ts[k].status == InUse
    ensures !Coherent(SetTableStatus(ts, FindSession(ss, sid).value.tableId, Idle, now), CompleteSession(ss, sid, now))
  {
    CountActiveAfterComplete(ss, sid, now, ts[k].id);
    assert SetTableStatus(ts, ts[k].id, Idle, now)[k].status == Idle;
  }

  /** Ending a session that was already completed is harmless while its table is still
      idle: the table stays idle and no active count changes. */
  lemma EndCompletedOnIdleTableKeepsCoherent(ts: seq<TableRow>, ss: seq<SessionRow>, sid: int, now: int)
    requires Coherent(ts, ss) && DistinctSessionIds(ss)
    requires FindSession(ss, sid).Some? && FindSession(ss, sid).value.status == Completed
    requires TableIdle(ts, FindSession(ss, sid).value.tableId)
    ensures Coherent(SetTableStatus(ts, FindSession(ss, sid).value.tableId, Idle, now), CompleteSession(ss, sid, now))
  {
    var s := FindSession(ss, sid).value;
    var ts', ss' := SetTableStatus(ts, s.tableId, Idle, now), CompleteSession(ss, sid, now);
    forall i | 0 <= i < |ts'|
      ensures CountActive(ss', ts'[i].id) <= 1 && (ts'[i].status == InUse <==> CountActive(ss', ts'[i].id) == 1)
    {
      CountActiveAfterComplete(ss, sid, now, ts[i].id);
    }
  }

  /** Ending a session twice re-stamps its end time with the second call's clock and
      idles its table again; the outcome is as if only the second call had run. */
  lemma EndTwiceRestamps(ts: seq<TableRow>, ss: seq<SessionRow>, sid: int, t1: int, t2: int)
    requires FindSession(ss, sid).Some?
    ensures var s := FindSession(ss, sid).value;
      var once := CompleteSession(ss, sid, t1);
      && FindSession(once, sid).Some? && FindSession(once, sid).value.tableId == s.tableId
      && CompleteSession(once, sid, t2) == CompleteSession(ss, sid, t2)
      && FindSession(CompleteSession(once, sid, t2), sid) == Some(s.(endTime := Some(t2), status := Completed))
      && SetTableStatus(SetTableStatus(ts, s.tableId, Idle, t1), s.tableId, Idle, t2)
           == SetTableStatus(ts, s.tableId, Idle, t2)
  {
    Ledger.FindAfterComplete(ss, sid, t1, sid);
    Ledger.FindAfterComplete(ss, sid, t2, sid);
    assert CompleteSession(CompleteSession(ss, sid, t1), sid, t2) == CompleteSession(ss, sid, t2);
  }

  function OfTenant(tenant: int): TableRow -> bool { (t: TableRow) => t.tenantId == tenant }

  /** `rows` lists exactly the tables `tabs`, one row each, in that order. */
  predicate RowsListTables(rows: seq<ActiveRow>, tabs: seq<TableRow>) {
    |rows| == |tabs| && forall i :: 0 <= i < |rows| ==> rows[i].table == tabs[i]
  }

  lemma RowsListTablesConcat(a: seq<ActiveRow>, b: seq<ActiveRow>, ta: seq<TableRow>, tb: seq<TableRow>)
    requires RowsListTables(a, ta) && RowsListTables(b, tb)
    ensures RowsListTables(a + b, ta + tb)
  {
    forall i | 0 <= i < |a + b| ensures (a + b)[i].table == (ta + tb)[i] {
      if i < |a| {
        assert (a + b)[i] == a[i] && (ta + tb)[i] == ta[i];
      } else {
        assert (a + b)[i] == b[i - |a|] && (ta + tb)[i] == tb[i - |a|];
      }
    }
  }

  /** With at most one open session per table, the join yields the tenant's tables in order. */
  lemma {:induction false} JoinRowsInTableOrder(ts: seq<TableRow>, ss: seq<SessionRow>, bms: seq<BillingMethodRow>, tenant: int)
    requires forall i :: 0 <= i < |ts| ==> CountActive(ss, ts[i].id) <= 1
    ensures RowsListTables(JoinRows(ts, ss, bms, tenant), Filter(ts, OfTenant(tenant)))
  {
    if ts != [] {
      var t, rest := ts[0], ts[1..];
      assert forall i :: 0 <= i < |rest| ==> rest[i] == ts[i + 1];
      JoinRowsInTableOrder(rest, ss, bms, tenant);
      assert CountActive(ss, t.id) <= 1 by {
        assert ts[0] == t;
      }
      var head := if t.tenantId == tenant then JoinTable(t, ss, bms) else [];
      var tabs := if t.tenantId == tenant then [t] else [];
      assert RowsListTables(head, tabs);
      assert JoinRows(ts, ss, bms, tenant) == head + JoinRows(rest, ss, bms, tenant);
      assert Filter(ts, OfTenant(tenant)) == tabs + Filter(rest, OfTenant(tenant));
      RowsListTablesConcat(head, JoinRows(rest, ss, bms, tenant), tabs, Filter(rest, OfTenant(tenant)));
    }
  }

  /** Under the invariant, the listing of `getActiveTables` has exactly one row per table
      of the tenant, in the order of the tables, and a row carries a session exactly when
      its table is in use. */
  lemma {:induction false} CoherentListingOneRowPerTable(ts: seq<TableRow>, ss: seq<SessionRow>, bms: seq<BillingMethodRow>, tenant: int)
    requires Coherent(ts, ss)
    ensures |JoinRows(ts, ss, bms, tenant)| == |Filter(ts, OfTenant(tenant))|
    ensures forall i :: 0 <= i < |JoinRows(ts, ss, bms, tenant)| ==>
      JoinRows(ts, ss, bms, tenant)[i].table == Filter(ts, OfTenant(tenant))[i]
    ensures forall i :: 0 <= i < |JoinRows(ts, ss, bms, tenant)| ==>
      (JoinRows(ts, ss, bms, tenant)[i].sessionId.Some? <==> JoinRows(ts, ss, bms, tenant)[i].table.status == InUse)
  {
    JoinRowsInTableOrder(ts, ss, bms, tenant);
    if ts != [] {
      var t, rest := ts[0], ts[1..];
      assert Coherent(rest, ss) by {
        forall i | 0 <= i < |rest|
          ensures CountActive(ss, rest[i].id) <= 1 && (rest[i].status == InUse <==> CountActive(ss, rest[i].id) == 1)
        {
          assert rest[i] == ts[i + 1];
        }
      }
      CoherentListingOneRowPerTable(rest, ss, bms, tenant);
      assert CountActive(ss, t.id) <= 1 && (t.status == InUse <==> CountActive(ss, t.id) == 1) by {
        assert ts[0] == t;
      }
      var head := if t.tenantId == tenant then JoinTable(t, ss, bms) else [];
      assert |head| == (if t.tenantId == tenant then 1 else 0);
      assert forall i :: 0 <= i < |head| ==> (head[i].sessionId.Some? <==> head[i].table.status == InUse);
      assert JoinRows(ts, ss, bms, tenant) == head + JoinRows(rest, ss, bms, tenant);
    }
  }
}
