/** The table management screen (src/components/tables/tables-management.tsx): the
    status-and-name filter behind its tabs, the tab counts, and the add handler. Its
    statuses are the screen's own and are not the store's idle/in use. */
module TablesManagement {
  import opened Common
  import opened Seqs
  import opened Text
  import opened UiLists

  datatype UiTableStatus = Occupied | Vacant | Reserved | Maintenance

  datatype UiTable = UiTable(
    id: string, name: string, status: UiTableStatus, location: string, billingMethod: string, rate: string)

  /** What the new-table dialog hands back (it always chooses `vacant`). */
  datatype TableDraft = TableDraft(
    name: string, location: string, billingMethod: string, rate: string, status: UiTableStatus)

  /** The records the screen starts with. */
  const MockTables: seq<UiTable> := [
    UiTable("1", "包间 1", Occupied, "二楼", "计时", "30元/小时"),
    UiTable("2", "包间 2", Occupied, "二楼", "套餐", "80元/4小时"),
    UiTable("3", "包间 3", Vacant, "二楼", "计时", "30元/小时"),
    UiTable("4", "包间 4", Maintenance, "二楼", "计时", "30元/小时"),
    UiTable("5", "大厅 A", Vacant, "一楼", "计次", "40元/局"),
    UiTable("6", "大厅 B", Reserved, "一楼", "计时", "25元/小时"),
    UiTable("7", "大厅 C", Vacant, "一楼", "计次", "40元/局"),
    UiTable("8", "大厅 D", Vacant, "一楼", "计次", "40元/局")
  ]

  function IdOf(t: UiTable): string { t.id }

  function WithId(d: TableDraft, id: string): UiTable {
    UiTable(id, d.name, d.status, d.location, d.billingMethod, d.rate)
  }

  // ---------------------------------------------------------------------------
  // Filtering

  predicate NameMatches(t: UiTable, query: string) {
    Contains(Lower(t.name), Lower(query))
  }

  /** The filter test: the status, when given, must match; the lower-cased name must
      include the lower-cased query. */
  function InTab(status: Option<UiTableStatus>, query: string): UiTable -> bool {
    (t: UiTable) => (if status.Some? then t.status == status.value else true) && NameMatches(t, query)
  }

  /** `getFilteredTables(status)`. */
  function GetFilteredTables(ts: seq<UiTable>, query: string, status: Option<UiTableStatus>): seq<UiTable> {
    Filter(ts, InTab(status, query))
  }

  /** A table is listed exactly when its name matches and, if a status is given, its
      status is that one; the listing keeps the list's order. */
  lemma GetFilteredTablesMeaning(ts: seq<UiTable>, more: seq<UiTable>, query: string, status: Option<UiTableStatus>)
    ensures forall t :: t in GetFilteredTables(ts, query, status) <==>
      t in ts && NameMatches(t, query) && (status.Some? ==> t.status == status.value)
    ensures GetFilteredTables(ts + more, query, status) ==
      GetFilteredTables(ts, query, status) + GetFilteredTables(more, query, status)
  {
    var r := GetFilteredTables(ts, query, status);
    forall t ensures t in r <==> t in ts && InTab(status, query)(t) {
      if t in r {
        var i :| 0 <= i < |r| && r[i] == t;
      }
      if t in ts && InTab(status, query)(t) {
        var i :| 0 <= i < |ts| && ts[i] == t;
      }
    }
    FilterConcat(ts, more, InTab(status, query));
  }

  /** The tab labels: "all" shows the list's length; the others their filtered counts. */
  datatype TabCounts = TabCounts(all: nat, occupied: nat, vacant: nat, reserved: nat)

  function GetTabCounts(ts: seq<UiTable>, query: string): TabCounts {
    TabCounts(
      |ts|,
      |GetFilteredTables(ts, query, Some(Occupied))|,
      |GetFilteredTables(ts, query, Some(Vacant))|,
      |GetFilteredTables(ts, query, Some(Reserved))|)
  }

  /** The three status tabs together with the tab-less maintenance tables make up the
      name-filtered list, which is never longer than the "all" count; so the status tabs
      sum to at most the "all" listing, and fall short by the maintenance tables. */
  lemma {:induction false} TabCountsAddUp(ts: seq<UiTable>, query: string)
    ensures var c := GetTabCounts(ts, query);
      && c.occupied + c.vacant + c.reserved + |GetFilteredTables(ts, query, Some(Maintenance))|
           == |GetFilteredTables(ts, query, None)|
      && c.occupied + c.vacant + c.reserved <= |GetFilteredTables(ts, query, None)| <= c.all
  {
    if ts != [] {
      TabCountsAddUp(ts[1..], query);
      FilteredCountStep(ts, query, None);
      FilteredCountStep(ts, query, Some(Occupied));
      FilteredCountStep(ts, query, Some(Vacant));
      FilteredCountStep(ts, query, Some(Reserved));
      FilteredCountStep(ts, query, Some(Maintenance));
    }
  }

  /** Removing the first table from the list lowers a listing's count by one exactly when
      that table is listed. */
  lemma FilteredCountStep(ts: seq<UiTable>, query: string, status: Option<UiTableStatus>)
    requires ts != []
    ensures |GetFilteredTables(ts, query, status)| ==
      (if InTab(status, query)(ts[0]) then 1 else 0) + |GetFilteredTables(ts[1..], query, status)|
  {
    assert ts == [ts[0]] + ts[1..];
    FilterConcat([ts[0]], ts[1..], InTab(status, query));
  }

  /** With an empty search the "all" tab's listing is the whole list. */
  lemma EmptySearchListsAll(ts: seq<UiTable>)
    ensures GetFilteredTables(ts, "", None) == ts
  {
    forall i | 0 <= i < |ts| ensures InTab(None, "")(ts[i]) {
      ContainsEmpty(Lower(ts[i].name));
    }
    FilterAllPass(ts, InTab(None, ""));
  }

  /** Adding a table raises exactly its own status tab, when its name matches. */
  lemma AddRaisesOwnTab(ts: seq<UiTable>, t: UiTable, query: string, status: UiTableStatus)
    ensures |GetFilteredTables(ts + [t], query, Some(status))| ==
      |GetFilteredTables(ts, query, Some(status))| + (if t.status == status && NameMatches(t, query) then 1 else 0)
    ensures GetTabCounts(ts + [t], query).all == GetTabCounts(ts, query).all + 1
  {
    FilterSnoc(ts, t, InTab(Some(status), query));
  }

  lemma MockTablesArePositional()
    ensures IdsArePositions(MockTables, IdOf) && UniqueKeys(MockTables, IdOf)
  {
    assert DecimalString(1) == "1" && DecimalString(2) == "2" && DecimalString(3) == "3" && DecimalString(4) == "4";
    assert DecimalString(5) == "5" && DecimalString(6) == "6" && DecimalString(7) == "7" && DecimalString(8) == "8";
    PositionalIds(MockTables, IdOf, MockTables[0]);
  }

  class TablesState {
    var tables: seq<UiTable>

    constructor ()
      ensures tables == MockTables
    {
      tables := MockTables;
    }

    /** `handleAddTable`: append the draft with id `String(length + 1)`. The screen has
        no delete, so ids stay positional and unique. */
    method AddTable(draft: TableDraft)
      modifies this
      ensures tables == old(tables) + [WithId(draft, DecimalString(|old(tables)| + 1))]
      ensures IdsArePositions(old(tables), IdOf) ==> IdsArePositions(tables, IdOf) && UniqueKeys(tables, IdOf)
    {
      var t := WithId(draft, LengthId(|tables|));
      if IdsArePositions(tables, IdOf) {
        PositionalIds(tables, IdOf, t);
        PositionalIds(tables + [t], IdOf, t);
      }
      tables := tables + [t];
    }
  }
}
