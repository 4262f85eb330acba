/** The finance ledger screen (src/components/finances/finances-management.tsx): the
    income and expense totals, the category lists, the filtered and date-sorted listing,
    and the append of a new record. Amounts are integers; a date is a millisecond
    instant on the client's clock. */
module Finances {
  import opened Seqs
  import opened Text
  import opened UiLists

  datatype Transaction = Transaction(
    id: string, kind: string, category: string, description: string, amount: int, date: int)

  /** What the new-transaction dialog hands back: a record without id and date. */
  datatype Draft = Draft(kind: string, category: string, description: string, amount: int)

  const Income: string := "income"
  const Expense: string := "expense"
  const All: string := "all"

  /** `new Date(2025, 2, day, hour, minute)` on a clock whose epoch is local midnight of
      1 January 1970: 20148 days separate that day from 1 March 2025. */
  function March2025(day: int, hour: int, minute: int): int {
    ((20148 + day - 1) * 1440 + hour * 60 + minute) * 60000
  }

  /** The records the screen starts with. */
  const MockTransactions: seq<Transaction> := [
    Transaction("1", Income, "台桌收入", "包间 1 消费", 240, March2025(28, 10, 30)),
    Transaction("2", Income, "台桌收入", "大厅 A 消费", 120, March2025(28, 11, 45)),
    Transaction("3", Expense, "进货支出", "红牛一箱、矿泉水两箱", 500, March2025(28, 9, 15)),
    Transaction("4", Income, "台桌收入", "包间 3 消费", 350, March2025(28, 14, 20)),
    Transaction("5", Expense, "水电费", "本月水电费", 800, March2025(27, 15, 0)),
    Transaction("6", Expense, "房租", "三月份房租", 5000, March2025(26, 11, 0)),
    Transaction("7", Income, "台桌收入", "包间 2 消费", 280, March2025(27, 18, 30)),
    Transaction("8", Expense, "员工工资", "服务员小李工资", 3000, March2025(25, 10, 0))
  ]

  // ---------------------------------------------------------------------------
  // Totals

  function OfKind(kind: string): Transaction -> bool { (t: Transaction) => t.kind == kind }

  /** `.reduce((sum, t) => sum + t.amount, 0)`. */
  function AmountSum(ts: seq<Transaction>): int {
    if ts == [] then 0 else ts[0].amount + AmountSum(ts[1..])
  }

  function TotalIncome(ts: seq<Transaction>): int { AmountSum(Filter(ts, OfKind(Income))) }
  function TotalExpense(ts: seq<Transaction>): int { AmountSum(Filter(ts, OfKind(Expense))) }
  function NetProfit(ts: seq<Transaction>): int { TotalIncome(ts) - TotalExpense(ts) }

  /** An independent reference: one pass adding the amount of every record of `kind`. */
  function ScanKind(ts: seq<Transaction>, kind: string): int {
    if ts == [] then 0 else (if ts[0].kind == kind then ts[0].amount else 0) + ScanKind(ts[1..], kind)
  }

  lemma {:induction false} AmountSumConcat(a: seq<Transaction>, b: seq<Transaction>)
    ensures AmountSum(a + b) == AmountSum(a) + AmountSum(b)
  {
    if a == [] {
      assert a + b == b;
    } else {
      assert (a + b)[1..] == a[1..] + b;
      AmountSumConcat(a[1..], b);
    }
  }

  /** Filter-then-reduce adds exactly the amounts of the records of that kind. */
  lemma {:induction false} TotalIsScan(ts: seq<Transaction>, kind: string)
    ensures AmountSum(Filter(ts, OfKind(kind))) == ScanKind(ts, kind)
  {
    if ts != [] {
      TotalIsScan(ts[1..], kind);
      var head := if ts[0].kind == kind then [ts[0]] else [];
      assert Filter(ts, OfKind(kind)) == head + Filter(ts[1..], OfKind(kind));
      AmountSumConcat(head, Filter(ts[1..], OfKind(kind)));
    }
  }

  /** `totalIncome`, `totalExpense` and `netProfit` are the scans of their kinds. */
  lemma TotalsMeaning(ts: seq<Transaction>)
    ensures TotalIncome(ts) == ScanKind(ts, Income)
    ensures TotalExpense(ts) == ScanKind(ts, Expense)
    ensures NetProfit(ts) == ScanKind(ts, Income) - ScanKind(ts, Expense)
  {
    TotalIsScan(ts, Income);
    TotalIsScan(ts, Expense);
  }

  /** Appending a record moves exactly the total of its own kind by its amount. */
  lemma TotalsAfterAppend(ts: seq<Transaction>, t: Transaction)
    ensures TotalIncome(ts + [t]) == TotalIncome(ts) + (if t.kind == Income then t.amount else 0)
    ensures TotalExpense(ts + [t]) == TotalExpense(ts) + (if t.kind == Expense then t.amount else 0)
    ensures NetProfit(ts + [t]) == NetProfit(ts) +
      (if t.kind == Income then t.amount else if t.kind == Expense then -t.amount else 0)
  {
    FilterSnoc(ts, t, OfKind(Income));
    FilterSnoc(ts, t, OfKind(Expense));
    AmountSumConcat(Filter(ts, OfKind(Income)), if t.kind == Income then [t] else []);
    AmountSumConcat(Filter(ts, OfKind(Expense)), if t.kind == Expense then [t] else []);
    assert AmountSum([t]) == t.amount by {
      assert [t][1..] == [];
    }
  }

  /** When every record is income or expense, the two totals share out the sum of all
      amounts. */
  lemma {:induction false} TotalsCoverAll(ts: seq<Transaction>)
    requires forall i :: 0 <= i < |ts| ==> ts[i].kind == Income || ts[i].kind == Expense
    ensures TotalIncome(ts) + TotalExpense(ts) == AmountSum(ts)
  {
    TotalsMeaning(ts);
    ScanKindsCoverAll(ts);
  }

  lemma {:induction false} ScanKindsCoverAll(ts: seq<Transaction>)
    requires forall i :: 0 <= i < |ts| ==> ts[i].kind == Income || ts[i].kind == Expense
    ensures ScanKind(ts, Income) + ScanKind(ts, Expense) == AmountSum(ts)
  {
    if ts != [] {
      assert ts[0].kind == Income || ts[0].kind == Expense;
      assert Income != Expense;
      ScanKindsCoverAll(ts[1..]);
    }
  }

  // ---------------------------------------------------------------------------
  // Categories

  function CategoryOf(t: Transaction): string { t.category }

  /** The categories of the records of `kind`, with repeats, in record order. */
  function KindCategories(ts: seq<Transaction>, kind: string): seq<string> {
    Map(Filter(ts, OfKind(kind)), CategoryOf)
  }

  /** `Array.from(new Set(ts.filter(t => t.type === kind).map(t => t.category)))`. */
  function Categories(ts: seq<Transaction>, kind: string): seq<string> {
    Dedup(KindCategories(ts, kind))
  }

  function IncomeCategories(ts: seq<Transaction>): seq<string> { Categories(ts, Income) }
  function ExpenseCategories(ts: seq<Transaction>): seq<string> { Categories(ts, Expense) }

  /** A category list has no repeats, holds exactly the categories occurring on records of
      its kind, and lists them in the order they first occur. */
  lemma CategoriesExact(ts: seq<Transaction>, kind: string)
    ensures NoDuplicates(Categories(ts, kind))
    ensures forall c :: c in Categories(ts, kind) <==>
      exists i :: 0 <= i < |ts| && ts[i].kind == kind && ts[i].category == c
    ensures forall i, j :: 0 <= i < j < |Categories(ts, kind)| ==>
      FirstIndex(KindCategories(ts, kind), Categories(ts, kind)[i]) <
      FirstIndex(KindCategories(ts, kind), Categories(ts, kind)[j])
  {
    var cats := KindCategories(ts, kind);
    forall c ensures c in Categories(ts, kind) <==> exists i :: 0 <= i < |ts| && ts[i].kind == kind && ts[i].category == c {
      if c in Categories(ts, kind) {
        KindCategoryHasRecord(ts, kind, c);
      }
      if exists i :: 0 <= i < |ts| && ts[i].kind == kind && ts[i].category == c {
        var i :| 0 <= i < |ts| && ts[i].kind == kind && ts[i].category == c;
        RecordCategoryListed(ts, kind, i);
      }
    }
    DedupFirstOccurrenceOrder(cats);
  }

  /** A listed category comes from some record of that kind. */
  lemma KindCategoryHasRecord(ts: seq<Transaction>, kind: string, c: string)
    requires c in KindCategories(ts, kind)
    ensures exists i :: 0 <= i < |ts| && ts[i].kind == kind && ts[i].category == c
  {
    var mine := Filter(ts, OfKind(kind));
    var j :| 0 <= j < |mine| && mine[j].category == c;
    assert mine[j] in ts && OfKind(kind)(mine[j]);
    var i :| 0 <= i < |ts| && ts[i] == mine[j];
  }

  /** The category of a record of the kind is listed. */
  lemma RecordCategoryListed(ts: seq<Transaction>, kind: string, i: nat)
    requires i < |ts| && ts[i].kind == kind
    ensures ts[i].category in Categories(ts, kind)
  {
    var mine := Filter(ts, OfKind(kind));
    assert OfKind(kind)(ts[i]);
    var j :| 0 <= j < |mine| && mine[j] == ts[i];
    assert KindCategories(ts, kind)[j] == ts[i].category;
  }

  // ---------------------------------------------------------------------------
  // The filtered, sorted listing

  /** The listing's test: each filter is either "all" or must equal the record's field. */
  function Matches(typeFilter: string, categoryFilter: string): Transaction -> bool {
    (t: Transaction) =>
      (typeFilter == All || t.kind == typeFilter) && (categoryFilter == All || t.category == categoryFilter)
  }

  predicate SortedByDateDesc(s: seq<Transaction>) {
    forall i, j :: 0 <= i < j < |s| ==> s[i].date >= s[j].date
  }

  /** Places `x` before the first record not newer than it. */
  function InsertByDate(x: Transaction, s: seq<Transaction>): (r: seq<Transaction>)
    ensures multiset(r) == multiset(s) + multiset{x}
  {
    if s == [] then [x]
    else if x.date >= s[0].date then [x] + s
    else
      assert s == [s[0]] + s[1..];
      [s[0]] + InsertByDate(x, s[1..])
  }

  lemma {:induction false} InsertByDateSorted(x: Transaction, s: seq<Transaction>)
    requires SortedByDateDesc(s)
    ensures SortedByDateDesc(InsertByDate(x, s))
  {
    if s != [] && x.date < s[0].date {
      var rest := InsertByDate(x, s[1..]);
      InsertByDateSorted(x, s[1..]);
      forall k | 0 <= k < |rest| ensures rest[k].date <= s[0].date {
        assert rest[k] in multiset(rest);
        if rest[k] != x {
          assert rest[k] in multiset(s[1..]);
          var j :| 0 <= j < |s[1..]| && s[1..][j] == rest[k];
          assert s[j + 1] == rest[k];
        }
      }
      assert InsertByDate(x, s) == [s[0]] + rest;
    }
  }

  /** `.sort((a, b) => b.date.getTime() - a.date.getTime())`: newest first. */
  function SortByDateDesc(s: seq<Transaction>): (r: seq<Transaction>)
    ensures SortedByDateDesc(r)
    ensures multiset(r) == multiset(s)
  {
    if s == [] then []
    else
      assert s == [s[0]] + s[1..];
      InsertByDateSorted(s[0], SortByDateDesc(s[1..]));
      InsertByDate(s[0], SortByDateDesc(s[1..]))
  }

  /** `filteredTransactions`. */
  function FilteredTransactions(ts: seq<Transaction>, typeFilter: string, categoryFilter: string): seq<Transaction> {
    SortByDateDesc(Filter(ts, Matches(typeFilter, categoryFilter)))
  }

  /** The listing is newest first, is a permutation of the matching records, and so lists
      a record exactly when it matches both filters. */
  lemma FilteredTransactionsMeaning(ts: seq<Transaction>, typeFilter: string, categoryFilter: string)
    ensures SortedByDateDesc(FilteredTransactions(ts, typeFilter, categoryFilter))
    ensures multiset(FilteredTransactions(ts, typeFilter, categoryFilter)) ==
      multiset(Filter(ts, Matches(typeFilter, categoryFilter)))
    ensures forall t :: t in FilteredTransactions(ts, typeFilter, categoryFilter) <==>
      t in ts && (typeFilter == All || t.kind == typeFilter) && (categoryFilter == All || t.category == categoryFilter)
  {
    var r := FilteredTransactions(ts, typeFilter, categoryFilter);
    var f := Filter(ts, Matches(typeFilter, categoryFilter));
    forall t ensures t in r <==> t in ts && (typeFilter == All || t.kind == typeFilter) && (categoryFilter == All || t.category == categoryFilter) {
      assert t in r <==> t in multiset(r);
      assert t in f <==> t in multiset(f);
      if t in ts && Matches(typeFilter, categoryFilter)(t) {
        var i :| 0 <= i < |ts| && ts[i] == t;
      }
    }
  }

  /** With the initial empty filters nothing is listed, since no record has an empty type. */
  lemma InitialFiltersListNothing(ts: seq<Transaction>)
    requires forall i :: 0 <= i < |ts| ==> ts[i].kind != ""
    ensures FilteredTransactions(ts, "", "") == []
  {
    FilterNonePass(ts, Matches("", ""));
  }

  /** With both filters at "all" every record is listed. */
  lemma AllFiltersListEverything(ts: seq<Transaction>)
    ensures multiset(FilteredTransactions(ts, All, All)) == multiset(ts)
  {
    FilterAllPass(ts, Matches(All, All));
  }

  // ---------------------------------------------------------------------------
  // The screen's record state

  function IdOf(t: Transaction): string { t.id }

  /** The initial records are numbered by position, so ids stay unique: the screen has
      no delete. */
  lemma MockIdsArePositions()
    ensures IdsArePositions(MockTransactions, IdOf) && UniqueKeys(MockTransactions, IdOf)
  {
    assert DecimalString(1) == "1" && DecimalString(2) == "2" && DecimalString(3) == "3" && DecimalString(4) == "4";
    assert DecimalString(5) == "5" && DecimalString(6) == "6" && DecimalString(7) == "7" && DecimalString(8) == "8";
    PositionalIds(MockTransactions, IdOf, MockTransactions[0]);
  }

  class FinancesState {
    var transactions: seq<Transaction>

    constructor ()
      ensures transactions == MockTransactions
    {
      transactions := MockTransactions;
    }

    /** `handleAddTransaction`: append the draft with id `String(length + 1)` and the
        current date. */
    method AddTransaction(draft: Draft, now: int)
      modifies this
      ensures transactions == old(transactions) +
        [Transaction(DecimalString(|old(transactions)| + 1), draft.kind, draft.category, draft.description, draft.amount, now)]
      ensures IdsArePositions(old(transactions), IdOf) ==>
        IdsArePositions(transactions, IdOf) && UniqueKeys(transactions, IdOf)
    {
      var t := Transaction(LengthId(|transactions|), draft.kind, draft.category, draft.description, draft.amount, now);
      if IdsArePositions(transactions, IdOf) {
        PositionalIds(transactions, IdOf, t);
        PositionalIds(transactions + [t], IdOf, t);
      }
      transactions := transactions + [t];
    }
  }
}
