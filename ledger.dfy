/** Facts about the consumption ledger of src/lib/db.ts: what `SUM(quantity * price)`
    computes, how an `addConsumption` changes it, and what the bill of `endTableSession`
    holds. */
module Ledger {
  import opened Common
  import opened Seqs
  import opened DbRows

  /** An independent reference for the bill total: scan every row and add quantity × price
      of those belonging to `sid`. */
  function ScanTotal(cs: seq<ConsumptionRow>, sid: int): int {
    if cs == [] then 0
    else (if cs[0].sessionId == sid then cs[0].quantity * cs[0].price else 0) + ScanTotal(cs[1..], sid)
  }

  lemma {:induction false} LineTotalConcat(a: seq<ConsumptionRow>, b: seq<ConsumptionRow>)
    ensures LineTotal(a + b) == LineTotal(a) + LineTotal(b)
  {
    if a == [] {
      assert a + b == b;
    } else {
      assert (a + b)[1..] == a[1..] + b;
      LineTotalConcat(a[1..], b);
    }
  }

  /** Summing the session's selected rows equals scanning the whole ledger. */
  lemma {:induction false} LineTotalIsScan(cs: seq<ConsumptionRow>, sid: int)
    ensures LineTotal(ForSession(cs, sid)) == ScanTotal(cs, sid)
  {
    if cs != [] {
      LineTotalIsScan(cs[1..], sid);
      assert ForSession(cs, sid) == (if cs[0].sessionId == sid then [cs[0]] else []) + ForSession(cs[1..], sid);
      LineTotalConcat(if cs[0].sessionId == sid then [cs[0]] else [], ForSession(cs[1..], sid));
    }
  }

  /** `total_consumption` is NULL exactly when no row belongs to the session, and otherwise
      Σ quantity × price over exactly that session's rows. */
  lemma SqlSumMeaning(cs: seq<ConsumptionRow>, sid: int)
    ensures SqlSum(cs, sid).None? <==> forall i :: 0 <= i < |cs| ==> cs[i].sessionId != sid
    ensures SqlSum(cs, sid).Some? ==> SqlSum(cs, sid).value == ScanTotal(cs, sid)
  {
    if forall i :: 0 <= i < |cs| ==> cs[i].sessionId != sid {
      FilterNonePass(cs, OfSession(sid));
    } else {
      var i :| 0 <= i < |cs| && cs[i].sessionId == sid;
      assert OfSession(sid)(cs[i]);
      assert cs[i] in ForSession(cs, sid);
    }
    LineTotalIsScan(cs, sid);
  }

  /** Appending a consumption row adds its quantity × price to its own session's total
      and leaves every other session's total as it was. */
  lemma SqlSumAppend(cs: seq<ConsumptionRow>, c: ConsumptionRow, sid: int)
    ensures SqlSum(cs + [c], sid) ==
      if c.sessionId == sid then Some(LineTotal(ForSession(cs, sid)) + c.quantity * c.price)
      else SqlSum(cs, sid)
  {
    FilterSnoc(cs, c, OfSession(sid));
    if c.sessionId == sid {
      assert ForSession(cs + [c], sid) == ForSession(cs, sid) + [c];
      LineTotalConcat(ForSession(cs, sid), [c]);
      assert [c][1..] == [];
      assert LineTotal([c]) == c.quantity * c.price;
    } else {
      assert ForSession(cs + [c], sid) == ForSession(cs, sid);
    }
  }

  /** Nothing stops a consumption from landing on a session that `endTableSession` has
      completed: re-reading that session's bill afterwards gives a different total from
      the one returned at checkout. */
  lemma AddAfterEndAltersBill(
    ss: seq<SessionRow>, bms: seq<BillingMethodRow>, cs: seq<ConsumptionRow>, sid: int, now: int,
    cid: int, pid: int, quantity: int, price: int)
    requires FindSession(ss, sid).Some? && FindMethod(bms, FindSession(ss, sid).value.billingMethodId).Some?
    requires quantity * price != 0
    ensures var done := CompleteSession(ss, sid, now);
      var late := cs + [ConsumptionRow(cid, sid, pid, quantity, price)];
      && FindSession(done, sid).Some? && FindSession(done, sid).value.status == Completed
      && BillFor(done, bms, cs, sid).Some? && BillFor(done, bms, late, sid).Some?
      && BillFor(done, bms, late, sid).value.totalConsumption != BillFor(done, bms, cs, sid).value.totalConsumption
  {
    var late := cs + [ConsumptionRow(cid, sid, pid, quantity, price)];
    BillAfterEnd(ss, bms, cs, sid, now);
    BillAfterEnd(ss, bms, late, sid, now);
    SqlSumAppend(cs, ConsumptionRow(cid, sid, pid, quantity, price), sid);
  }

  /** With the missing guard in place (only add to an active session), the totals of
      completed sessions can no longer change. */
  lemma GuardedAddKeepsSettledBills(
    ss: seq<SessionRow>, cs: seq<ConsumptionRow>, c: ConsumptionRow, settled: int)
    requires FindSession(ss, c.sessionId).Some? && FindSession(ss, c.sessionId).value.status == Active
    requires FindSession(ss, settled).Some? && FindSession(ss, settled).value.status == Completed
    ensures SqlSum(cs + [c], settled) == SqlSum(cs, settled)
  {
    assert c.sessionId != settled;
    SqlSumAppend(cs, c, settled);
  }

  /** So, over any run of guarded inserts, no completed session's total ever changes. */
  lemma {:induction false} GuardedAddsKeepSettledBills(
    ss: seq<SessionRow>, cs: seq<ConsumptionRow>, more: seq<ConsumptionRow>, settled: int)
    requires forall i :: 0 <= i < |more| ==>
      FindSession(ss, more[i].sessionId).Some? && FindSession(ss, more[i].sessionId).value.status == Active
    requires FindSession(ss, settled).Some? && FindSession(ss, settled).value.status == Completed
    ensures SqlSum(cs + more, settled) == SqlSum(cs, settled)
  {
    if more != [] {
      var init, last := more[..|more| - 1], more[|more| - 1];
      GuardedAddsKeepSettledBills(ss, cs, init, settled);
      assert cs + more == (cs + init) + [last];
      GuardedAddKeepsSettledBills(ss, cs + init, last, settled);
    } else {
      assert cs + more == cs;
    }
  }

  /** After the session's UPDATE, the lookup finds the completed row; other ids still find
      what they found before. */
  lemma {:induction false} FindAfterComplete(ss: seq<SessionRow>, sid: int, now: int, other: int)
    requires FindSession(ss, sid).Some?
    ensures FindSession(CompleteSession(ss, sid, now), sid) ==
      Some(FindSession(ss, sid).value.(endTime := Some(now), status := Completed))
    ensures other != sid ==> FindSession(CompleteSession(ss, sid, now), other) == FindSession(ss, other)
  {
    var done := CompleteSession(ss, sid, now);
    assert done[1..] == CompleteSession(ss[1..], sid, now);
    if ss[0].id == sid {
      if other != sid && ss[0].id != other {
        FindAfterCompleteOther(ss[1..], sid, now, other);
      }
    } else {
      FindAfterComplete(ss[1..], sid, now, other);
    }
  }

  lemma {:induction false} FindAfterCompleteOther(ss: seq<SessionRow>, sid: int, now: int, other: int)
    requires other != sid
    ensures FindSession(CompleteSession(ss, sid, now), other) == FindSession(ss, other)
  {
    if ss != [] {
      assert CompleteSession(ss, sid, now)[1..] == CompleteSession(ss[1..], sid, now);
      FindAfterCompleteOther(ss[1..], sid, now, other);
    }
  }

  /** The bill `endTableSession` returns: present exactly when the session's billing
      method exists; it shows the session completed at `now`, the method's pricing
      columns, and the ledger total of that session. */
  lemma BillAfterEnd(ss: seq<SessionRow>, bms: seq<BillingMethodRow>, cs: seq<ConsumptionRow>, sid: int, now: int)
    requires FindSession(ss, sid).Some?
    ensures var s := FindSession(ss, sid).value;
      var b := BillFor(CompleteSession(ss, sid, now), bms, cs, sid);
      && (b.Some? <==> FindMethod(bms, s.billingMethodId).Some?)
      && (b.Some? ==>
            && b.value.session == s.(endTime := Some(now), status := Completed)
            && b.value.billingType == FindMethod(bms, s.billingMethodId).value.kind
            && b.value.basePrice == FindMethod(bms, s.billingMethodId).value.basePrice
            && b.value.totalConsumption == SqlSum(cs, sid))
  {
    FindAfterComplete(ss, sid, now, sid);
  }
}
