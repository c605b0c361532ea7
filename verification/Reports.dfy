/** The trial balance and the balance sheet over posted journal lines. */
module Reports {
  import opened Wrappers
  import opened Sums
  import opened Posting
  import opened Books
  import opened BooksInvariant

  datatype AccountType = AssetType | LiabilityType | EquityType | RevenueType | CostOfSalesType | ExpenseType

  datatype Listed = Listed(account: Account, kind: AccountType)

  function On(a: Account, value: Line -> int): Line -> int {
    (l: Line) => if l.account == a then value(l) else 0
  }

  function DebitOn(a: Account): Line -> int {
    On(a, DebitOf())
  }

  function CreditOn(a: Account): Line -> int {
    On(a, CreditOf())
  }

  datatype Aggregate = Aggregate(debit: int, credit: int) {
    function Net(): int {
      debit - credit
    }
  }

  function TotalsOn(lines: seq<Line>, a: Account): Aggregate {
    Aggregate(SumOf(lines, DebitOn(a)), SumOf(lines, CreditOn(a)))
  }

  function NetOn(lines: seq<Line>, a: Account): int {
    SumOf(lines, DebitOn(a)) - SumOf(lines, CreditOn(a))
  }

  /** `map.get(a) ?? emptyAggregate()`. */
  function LookUp(totals: map<Account, Aggregate>, a: Account): Aggregate {
    if a in totals then totals[a] else Aggregate(0, 0)
  }

  /** `aggregateLines`. */
  method AggregateLines(lines: seq<Line>) returns (totals: map<Account, Aggregate>)
    ensures forall a :: LookUp(totals, a) == TotalsOn(lines, a)
  {
    totals := map[];
    for k := 0 to |lines|
      invariant forall a :: LookUp(totals, a) == TotalsOn(lines[..k], a)
    {
      var l := lines[k];
      assert lines[..k + 1] == lines[..k] + [l];
      forall a
        ensures TotalsOn(lines[..k + 1], a)
             == if a == l.account then Aggregate(TotalsOn(lines[..k], a).debit + l.debit, TotalsOn(lines[..k], a).credit + l.credit)
                else TotalsOn(lines[..k], a)
      {
        SumInsert(lines[..k], l);
      }
      hide TotalsOn;
      ghost var sofar := totals;
      var before := LookUp(totals, l.account);
      totals := totals[l.account := Aggregate(before.debit + l.debit, before.credit + l.credit)];
      assert forall a :: LookUp(totals, a) == if a == l.account then Aggregate(before.debit + l.debit, before.credit + l.credit) else LookUp(sofar, a);
    }
    assert lines[..|lines|] == lines;
  }

  /** `debitCreditPair`: a net amount in the column of its sign. */
  function InDebit(net: int): int {
    if net >= 0 then net else 0
  }

  function InCredit(net: int): int {
    if net >= 0 then 0 else -net
  }

  datatype TrialRow = TrialRow(account: Account, openingDebit: int, openingCredit: int, periodDebit: int, periodCredit: int, closingDebit: int, closingCredit: int)

  predicate IsQuiet(opening: Aggregate, period: Aggregate) {
    opening.Net() == 0 && period == Aggregate(0, 0)
  }

  function RowOf(a: Account, opening: Aggregate, period: Aggregate): TrialRow {
    var closing := opening.Net() + period.Net();
    TrialRow(a, InDebit(opening.Net()), InCredit(opening.Net()), period.debit, period.credit, InDebit(closing), InCredit(closing))
  }

  function TrialRows(accounts: seq<Listed>, opening: seq<Line>, period: seq<Line>, includeZero: bool): seq<TrialRow> {
    if accounts == [] then [] else
    var a := accounts[|accounts| - 1].account;
    TrialRows(accounts[..|accounts| - 1], opening, period, includeZero)
    + if includeZero || !IsQuiet(TotalsOn(opening, a), TotalsOn(period, a)) then [RowOf(a, TotalsOn(opening, a), TotalsOn(period, a))] else []
  }

  datatype Totals = Totals(openingDebit: int, openingCredit: int, periodDebit: int, periodCredit: int, closingDebit: int, closingCredit: int)

  function Plus(t: Totals, row: TrialRow): Totals {
    Totals(t.openingDebit + row.openingDebit, t.openingCredit + row.openingCredit, t.periodDebit + row.periodDebit, t.periodCredit + row.periodCredit,
           t.closingDebit + row.closingDebit, t.closingCredit + row.closingCredit)
  }

  /** The six columns added up. */
  function ColumnTotals(rows: seq<TrialRow>): Totals {
    if rows == [] then Totals(0, 0, 0, 0, 0, 0) else Plus(ColumnTotals(rows[..|rows| - 1]), rows[|rows| - 1])
  }

  /** The rows of `buildTrialBalanceReport`. */
  method BuildRows(accounts: seq<Listed>, opening: seq<Line>, period: seq<Line>, includeZero: bool) returns (rows: seq<TrialRow>)
    ensures rows == TrialRows(accounts, opening, period, includeZero)
  {
    var before := AggregateLines(opening);
    var during := AggregateLines(period);
    hide LookUp, TotalsOn, RowOf, IsQuiet;
    rows := [];
    for k := 0 to |accounts|
      invariant rows == TrialRows(accounts[..k], opening, period, includeZero)
    {
      assert accounts[..k + 1][..k] == accounts[..k];
      var a := accounts[k].account;
      var o, p := LookUp(before, a), LookUp(during, a);
      if includeZero || !IsQuiet(o, p) {
        rows := rows + [RowOf(a, o, p)];
      }
    }
    assert accounts[..|accounts|] == accounts;
  }

  /** The `reduce` over the rows. */
  method AddUp(rows: seq<TrialRow>) returns (totals: Totals)
    ensures totals == ColumnTotals(rows)
  {
    hide Plus;
    totals := Totals(0, 0, 0, 0, 0, 0);
    for k := 0 to |rows|
      invariant totals == ColumnTotals(rows[..k])
    {
      assert rows[..k + 1][..k] == rows[..k];
      totals := Plus(totals, rows[k]);
    }
    assert rows[..|rows|] == rows;
  }

  /** The report, and whether it calls itself balanced. */
  method TrialBalance(accounts: seq<Listed>, opening: seq<Line>, period: seq<Line>, includeZero: bool)
    returns (rows: seq<TrialRow>, totals: Totals, balanced: bool)
    requires ListsAll(accounts, opening) && ListsAll(accounts, period)
    ensures rows == TrialRows(accounts, opening, period, includeZero) && totals == ColumnTotals(rows)
    ensures totals.periodDebit == SumOf(period, DebitOf()) && totals.periodCredit == SumOf(period, CreditOf())
    ensures totals.openingDebit == totals.openingCredit <==> Balanced(opening)
    ensures balanced <==> Balanced(opening + period)
  {
    TrialBalanceAgreesExactlyWhen(accounts, opening, period, includeZero);
    rows := BuildRows(accounts, opening, period, includeZero);
    hide *;
    totals := AddUp(rows);
    balanced := totals.closingDebit == totals.closingCredit;
  }

  // ---- every line is on one listed account

  predicate ListsAll(accounts: seq<Listed>, lines: seq<Line>) {
    && (forall i, j :: 0 <= i < j < |accounts| ==> accounts[i].account != accounts[j].account)
    && (forall l :: l in lines ==> exists i :: 0 <= i < |accounts| && accounts[i].account == l.account)
  }

  function NetOf(lines: seq<Line>): Listed -> int {
    (x: Listed) => NetOn(lines, x.account)
  }

  function Imbalance(lines: seq<Line>): int {
    SumOf(lines, DebitOf()) - SumOf(lines, CreditOf())
  }

  function OnlyOn(a: Account, amount: int): Listed -> int {
    (x: Listed) => if x.account == a then amount else 0
  }

  lemma {:induction false} CountedOnce(accounts: seq<Listed>, k: nat, amount: int)
    requires k < |accounts| && forall i, j :: 0 <= i < j < |accounts| ==> accounts[i].account != accounts[j].account
    ensures SumOf(accounts, OnlyOn(accounts[k].account, amount)) == amount
  {
    var n := |accounts| - 1;
    if k < n {
      CountedOnce(accounts[..n], k, amount);
    } else {
      SumZero(accounts[..n], OnlyOn(accounts[k].account, amount));
    }
  }

  /** What the lines put on an account. */
  function ShareOf(lines: seq<Line>, value: Line -> int): Listed -> int {
    (x: Listed) => SumOf(lines, On(x.account, value))
  }

  /** Adding up by account and adding up by line come to the same. */
  lemma {:induction false} ByAccountIsByLine(accounts: seq<Listed>, lines: seq<Line>, value: Line -> int)
    requires ListsAll(accounts, lines)
    ensures SumOf(accounts, ShareOf(lines, value)) == SumOf(lines, value)
  {
    if lines == [] {
      SumZero(accounts, ShareOf([], value));
    } else {
      var n := |lines| - 1;
      var l := lines[n];
      forall x | x in lines[..n]
        ensures x in lines
      {
      }
      ByAccountIsByLine(accounts, lines[..n], value);
      assert l in lines;
      var k :| 0 <= k < |accounts| && accounts[k].account == l.account;
      CountedOnce(accounts, k, value(l));
      SumAdds(accounts, ShareOf(lines[..n], value), OnlyOn(l.account, value(l)), ShareOf(lines, value));
    }
  }

  lemma NetsAreImbalance(accounts: seq<Listed>, lines: seq<Line>)
    requires ListsAll(accounts, lines)
    ensures SumOf(accounts, NetOf(lines)) == Imbalance(lines)
  {
    ByAccountIsByLine(accounts, lines, DebitOf());
    ByAccountIsByLine(accounts, lines, CreditOf());
    SumAdds(accounts, NetOf(lines), ShareOf(lines, CreditOf()), ShareOf(lines, DebitOf()));
  }

  /** What the columns come to, account by account. */
  predicate ColumnsCover(totals: Totals, accounts: seq<Listed>, opening: seq<Line>, period: seq<Line>) {
    && totals.openingDebit - totals.openingCredit == SumOf(accounts, NetOf(opening))
    && totals.periodDebit == SumOf(accounts, ShareOf(period, DebitOf()))
    && totals.periodCredit == SumOf(accounts, ShareOf(period, CreditOf()))
    && totals.closingDebit - totals.closingCredit == SumOf(accounts, NetOf(opening)) + SumOf(accounts, NetOf(period))
  }

  lemma {:induction false} ColumnsByAccount(accounts: seq<Listed>, opening: seq<Line>, period: seq<Line>, includeZero: bool)
    ensures ColumnsCover(ColumnTotals(TrialRows(accounts, opening, period, includeZero)), accounts, opening, period)
  {
    if accounts != [] {
      hide ColumnsCover, ColumnTotals, RowOf, IsQuiet, TotalsOn, Plus;
      var before := accounts[..|accounts| - 1];
      ColumnsByAccount(before, opening, period, includeZero);
      CoversOneMore(ColumnTotals(TrialRows(before, opening, period, includeZero)), accounts, opening, period);
      TotalsOneMore(accounts, opening, period, includeZero);
    }
  }

  /** A row adds itself to the columns, and one that is left out would add nothing. */
  lemma TotalsOneMore(accounts: seq<Listed>, opening: seq<Line>, period: seq<Line>, includeZero: bool)
    requires accounts != []
    ensures var a := accounts[|accounts| - 1].account;
            ColumnTotals(TrialRows(accounts, opening, period, includeZero))
            == Plus(ColumnTotals(TrialRows(accounts[..|accounts| - 1], opening, period, includeZero)), RowOf(a, TotalsOn(opening, a), TotalsOn(period, a)))
  {
    hide TotalsOn, ColumnTotals, Plus, RowOf, IsQuiet;
    var a := accounts[|accounts| - 1].account;
    var o, p := TotalsOn(opening, a), TotalsOn(period, a);
    var rows := TrialRows(accounts[..|accounts| - 1], opening, period, includeZero);
    if includeZero || !IsQuiet(o, p) {
      OneMoreRow(rows, RowOf(a, o, p));
    } else {
      assert rows + [] == rows;
      QuietRow(ColumnTotals(rows), a, o, p);
    }
  }

  lemma QuietRow(totals: Totals, a: Account, o: Aggregate, p: Aggregate)
    requires IsQuiet(o, p)
    ensures Plus(totals, RowOf(a, o, p)) == totals
  {
  }

  lemma CoversOneMore(totals: Totals, accounts: seq<Listed>, opening: seq<Line>, period: seq<Line>)
    requires accounts != [] && ColumnsCover(totals, accounts[..|accounts| - 1], opening, period)
    ensures var a := accounts[|accounts| - 1].account;
            ColumnsCover(Plus(totals, RowOf(a, TotalsOn(opening, a), TotalsOn(period, a))), accounts, opening, period)
  {
    hide TotalsOn, NetOf, ShareOf, SumOf, DebitOf, CreditOf, Plus, RowOf;
    var x := accounts[|accounts| - 1];
    PlusRow(totals, x.account, TotalsOn(opening, x.account), TotalsOn(period, x.account));
    LastAccount(accounts, opening);
    LastAccount(accounts, period);
  }

  lemma LastAccount(accounts: seq<Listed>, lines: seq<Line>)
    requires accounts != []
    ensures var n := |accounts| - 1;
            var totals := TotalsOn(lines, accounts[n].account);
            && SumOf(accounts, NetOf(lines)) == SumOf(accounts[..n], NetOf(lines)) + totals.Net()
            && SumOf(accounts, ShareOf(lines, DebitOf())) == SumOf(accounts[..n], ShareOf(lines, DebitOf())) + totals.debit
            && SumOf(accounts, ShareOf(lines, CreditOf())) == SumOf(accounts[..n], ShareOf(lines, CreditOf())) + totals.credit
  {
    AccountShares(accounts[|accounts| - 1], lines);
  }

  lemma PlusRow(totals: Totals, a: Account, o: Aggregate, p: Aggregate)
    ensures var after := Plus(totals, RowOf(a, o, p));
            && after.openingDebit - after.openingCredit == totals.openingDebit - totals.openingCredit + o.Net()
            && after.periodDebit == totals.periodDebit + p.debit && after.periodCredit == totals.periodCredit + p.credit
            && after.closingDebit - after.closingCredit == totals.closingDebit - totals.closingCredit + o.Net() + p.Net()
  {
  }

  lemma AccountShares(x: Listed, lines: seq<Line>)
    ensures var totals := TotalsOn(lines, x.account);
            NetOf(lines)(x) == totals.Net() && ShareOf(lines, DebitOf())(x) == totals.debit && ShareOf(lines, CreditOf())(x) == totals.credit
  {
  }

  lemma OneMoreRow(rows: seq<TrialRow>, row: TrialRow)
    ensures ColumnTotals(rows + [row]) == Plus(ColumnTotals(rows), row)
  {
    assert (rows + [row])[..|rows|] == rows;
  }

  /**
   * Leaving out quiet accounts or not, the period columns show every line once, the opening columns
   * agree exactly when the opening lines balance, and the closing ones when all lines do as a whole.
   */
  lemma TrialBalanceAgreesExactlyWhen(accounts: seq<Listed>, opening: seq<Line>, period: seq<Line>, includeZero: bool)
    requires ListsAll(accounts, opening) && ListsAll(accounts, period)
    ensures var totals := ColumnTotals(TrialRows(accounts, opening, period, includeZero));
            && totals.periodDebit == SumOf(period, DebitOf()) && totals.periodCredit == SumOf(period, CreditOf())
            && (totals.openingDebit == totals.openingCredit <==> Balanced(opening))
            && (totals.closingDebit == totals.closingCredit <==> Balanced(opening + period))
  {
    ColumnsByAccount(accounts, opening, period, includeZero);
    NetsAreImbalance(accounts, opening);
    NetsAreImbalance(accounts, period);
    ByAccountIsByLine(accounts, period, DebitOf());
    ByAccountIsByLine(accounts, period, CreditOf());
    SumOfParts(opening, period, DebitOf());
    SumOfParts(opening, period, CreditOf());
  }

  // ---- what a row shows

  /** One of the two columns is empty, and the other holds the net amount. */
  predicate InOneColumn(debit: int, credit: int, net: int) {
    debit >= 0 && credit >= 0 && (debit == 0 || credit == 0) && debit - credit == net
  }

  /** The account had a balance before the period or a movement in it. */
  predicate IsActive(opening: seq<Line>, period: seq<Line>, a: Account) {
    NetOn(opening, a) != 0 || SumOf(period, DebitOn(a)) != 0 || SumOf(period, CreditOn(a)) != 0
  }

  predicate RowShows(row: TrialRow, opening: seq<Line>, period: seq<Line>) {
    && InOneColumn(row.openingDebit, row.openingCredit, NetOn(opening, row.account))
    && row.periodDebit == SumOf(period, DebitOn(row.account)) && row.periodCredit == SumOf(period, CreditOn(row.account))
    && InOneColumn(row.closingDebit, row.closingCredit, NetOn(opening, row.account) + NetOn(period, row.account))
  }

  predicate IsListed(accounts: seq<Listed>, a: Account) {
    exists i :: 0 <= i < |accounts| && accounts[i].account == a
  }

  predicate HasRow(rows: seq<TrialRow>, a: Account) {
    exists k :: 0 <= k < |rows| && rows[k].account == a
  }

  /**
   * Every row shows its account's balances, each on the side it stands on, and every listed account that
   * was active, or all of them on request, has exactly one row.
   */
  lemma {:induction false} RowsShowAccounts(accounts: seq<Listed>, opening: seq<Line>, period: seq<Line>, includeZero: bool)
    requires forall i, j :: 0 <= i < j < |accounts| ==> accounts[i].account != accounts[j].account
    ensures var rows := TrialRows(accounts, opening, period, includeZero);
            && (forall k :: 0 <= k < |rows| ==> RowShows(rows[k], opening, period))
            && (forall a :: HasRow(rows, a) <==> IsListed(accounts, a) && (includeZero || IsActive(opening, period, a)))
            && (forall j, k :: 0 <= j < k < |rows| ==> rows[j].account != rows[k].account)
  {
    hide RowShows, IsActive, IsQuiet, TotalsOn, RowOf, IsListed, HasRow, InOneColumn;
    if accounts != [] {
      var n := |accounts| - 1;
      var a := accounts[n].account;
      var before := TrialRows(accounts[..n], opening, period, includeZero);
      RowsShowAccounts(accounts[..n], opening, period, includeZero);
      RowShowsAccount(opening, period, a);
      ListedOneMore(accounts);
      if includeZero || IsActive(opening, period, a) {
        RowOneMore(before, RowOf(a, TotalsOn(opening, a), TotalsOn(period, a)));
      } else {
        assert before + [] == before;
      }
    } else {
      NoRows();
    }
  }

  lemma NoRows()
    ensures forall a :: !HasRow([], a) && !IsListed([], a)
  {
  }

  /** The rows stand in the order of the accounts. */
  lemma {:induction false} RowsInOrder(accounts: seq<Listed>, k: nat, opening: seq<Line>, period: seq<Line>, includeZero: bool)
    requires k <= |accounts|
    ensures TrialRows(accounts[..k], opening, period, includeZero) <= TrialRows(accounts, opening, period, includeZero)
  {
    hide IsQuiet, TotalsOn, RowOf;
    if k < |accounts| {
      RowsInOrder(accounts[..|accounts| - 1], k, opening, period, includeZero);
      assert accounts[..|accounts| - 1][..k] == accounts[..k];
    } else {
      assert accounts[..k] == accounts;
    }
  }

  lemma RowShowsAccount(opening: seq<Line>, period: seq<Line>, a: Account)
    ensures IsQuiet(TotalsOn(opening, a), TotalsOn(period, a)) <==> !IsActive(opening, period, a)
    ensures var row := RowOf(a, TotalsOn(opening, a), TotalsOn(period, a)); row.account == a && RowShows(row, opening, period)
  {
  }

  lemma ListedOneMore(accounts: seq<Listed>)
    requires accounts != []
    requires forall i, j :: 0 <= i < j < |accounts| ==> accounts[i].account != accounts[j].account
    ensures var n := |accounts| - 1;
            && !IsListed(accounts[..n], accounts[n].account)
            && forall a :: IsListed(accounts, a) <==> a == accounts[n].account || IsListed(accounts[..n], a)
  {
    var n := |accounts| - 1;
    forall a
      ensures IsListed(accounts, a) <==> a == accounts[n].account || IsListed(accounts[..n], a)
    {
      if IsListed(accounts[..n], a) {
        var i :| 0 <= i < n && accounts[..n][i].account == a;
        assert accounts[i].account == a;
      }
      if i :| 0 <= i < |accounts| && accounts[i].account == a {
        assert i < n ==> accounts[..n][i].account == a;
      }
    }
  }

  lemma RowOneMore(rows: seq<TrialRow>, row: TrialRow)
    ensures forall a :: HasRow(rows + [row], a) <==> a == row.account || HasRow(rows, a)
    ensures !HasRow(rows, row.account) ==> forall k :: 0 <= k < |rows| ==> rows[k].account != row.account
  {
    forall a
      ensures HasRow(rows + [row], a) <==> a == row.account || HasRow(rows, a)
    {
      assert (rows + [row])[|rows|] == row && forall k :: 0 <= k < |rows| ==> (rows + [row])[k] == rows[k];
    }
  }

  // ---- the balance sheet

  /** The section total of a type, in the direction it is reported. */
  function SectionAmount(lines: seq<Line>, kind: AccountType): Listed -> int {
    (x: Listed) =>
      if x.kind != kind then 0
      else if kind == AssetType || kind == CostOfSalesType || kind == ExpenseType then NetOn(lines, x.account)
      else -NetOn(lines, x.account)
  }

  function Section(accounts: seq<Listed>, lines: seq<Line>, kind: AccountType): int {
    SumOf(accounts, SectionAmount(lines, kind))
  }

  /** Net profit of all profit-and-loss accounts up to the date. */
  function RetainedEarnings(accounts: seq<Listed>, lines: seq<Line>): int {
    Section(accounts, lines, RevenueType) - Section(accounts, lines, CostOfSalesType) - Section(accounts, lines, ExpenseType)
  }

  lemma {:induction false} SectionsPartition(accounts: seq<Listed>, lines: seq<Line>)
    ensures Section(accounts, lines, AssetType) - Section(accounts, lines, LiabilityType) - Section(accounts, lines, EquityType)
          - RetainedEarnings(accounts, lines) == SumOf(accounts, NetOf(lines))
  {
    if accounts != [] {
      SectionsPartition(accounts[..|accounts| - 1], lines);
    }
  }

  /**
   * A line on a listed account counts in the section of the account's type and in no other, debits up in
   * assets and expenses and credits up in the rest.
   */
  lemma LineInItsSection(accounts: seq<Listed>, k: nat, lines: seq<Line>, l: Line, kind: AccountType)
    requires k < |accounts| && accounts[k].account == l.account
    requires forall i, j :: 0 <= i < j < |accounts| ==> accounts[i].account != accounts[j].account
    ensures Section(accounts, [], kind) == 0
    ensures Section(accounts, lines + [l], kind)
         == Section(accounts, lines, kind)
            + if accounts[k].kind != kind then 0
              else if kind == LiabilityType || kind == EquityType || kind == RevenueType then l.credit - l.debit
              else l.debit - l.credit
  {
    SumZero(accounts, SectionAmount([], kind));
    var amount := if accounts[k].kind != kind then 0
                  else if kind == LiabilityType || kind == EquityType || kind == RevenueType then l.credit - l.debit
                  else l.debit - l.credit;
    CountedOnce(accounts, k, amount);
    forall i | 0 <= i < |accounts|
      ensures SectionAmount(lines + [l], kind)(accounts[i]) == SectionAmount(lines, kind)(accounts[i]) + OnlyOn(l.account, amount)(accounts[i])
    {
      SumAppend(lines, l, DebitOn(accounts[i].account));
      SumAppend(lines, l, CreditOn(accounts[i].account));
      assert i != k ==> accounts[i].account != l.account;
    }
    hide SectionAmount, OnlyOn, DebitOn, CreditOn;
    SumAdds(accounts, SectionAmount(lines, kind), OnlyOn(l.account, amount), SectionAmount(lines + [l], kind));
  }

  /** And in the net profit when its account is one of profit and loss, credits up. */
  lemma LineInNetProfit(accounts: seq<Listed>, k: nat, lines: seq<Line>, l: Line)
    requires k < |accounts| && accounts[k].account == l.account
    requires forall i, j :: 0 <= i < j < |accounts| ==> accounts[i].account != accounts[j].account
    ensures RetainedEarnings(accounts, []) == 0
    ensures RetainedEarnings(accounts, lines + [l])
         == RetainedEarnings(accounts, lines)
            + if accounts[k].kind == RevenueType || accounts[k].kind == CostOfSalesType || accounts[k].kind == ExpenseType then l.credit - l.debit else 0
  {
    LineInItsSection(accounts, k, lines, l, RevenueType);
    LineInItsSection(accounts, k, lines, l, CostOfSalesType);
    LineInItsSection(accounts, k, lines, l, ExpenseType);
    hide Section;
  }

  /** Assets are liabilities, equity and retained earnings exactly when the lines balance as a whole. */
  lemma BalanceSheetAgreesExactlyWhen(accounts: seq<Listed>, lines: seq<Line>)
    requires ListsAll(accounts, lines)
    ensures Section(accounts, lines, AssetType)
         == Section(accounts, lines, LiabilityType) + Section(accounts, lines, EquityType) + RetainedEarnings(accounts, lines)
         <==> Balanced(lines)
  {
    SectionsPartition(accounts, lines);
    NetsAreImbalance(accounts, lines);
  }

  // ---- over the journal of the subledger

  predicate IsDated(date: int, from: Option<int>, to: Option<int>) {
    (from.None? || from.value <= date) && (to.None? || date <= to.value)
  }

  /** The lines of the entries dated in a range; `dates[e]` is the date of entry `e`. */
  function LinesDated(journal: seq<Entry>, dates: seq<int>, from: Option<int>, to: Option<int>): seq<Line>
    requires |dates| == |journal|
  {
    if journal == [] then [] else
    var n := |journal| - 1;
    LinesDated(journal[..n], dates[..n], from, to)
    + if IsDated(dates[n], from, to) then journal[n].lines else []
  }

  /** Exactly the lines of entries dated on or between the two days, */
  lemma {:induction false} DatedWithin(journal: seq<Entry>, dates: seq<int>, from: Option<int>, to: Option<int>, l: Line)
    requires |dates| == |journal|
    ensures l in LinesDated(journal, dates, from, to)
       <==> exists e :: 0 <= e < |journal| && l in journal[e].lines && (from.None? || from.value <= dates[e]) && (to.None? || dates[e] <= to.value)
  {
    if journal != [] {
      var n := |journal| - 1;
      DatedWithin(journal[..n], dates[..n], from, to, l);
      assert forall e :: 0 <= e < n ==> journal[..n][e] == journal[e] && dates[..n][e] == dates[e];
    }
  }

  /** and every one of them once: a period and all before it add up to all until its end. */
  lemma {:induction false} PeriodsAddUp(journal: seq<Entry>, dates: seq<int>, from: int, to: int, value: Line -> int)
    requires |dates| == |journal| && from <= to + 1
    ensures SumOf(LinesDated(journal, dates, None, Some(from - 1)), value) + SumOf(LinesDated(journal, dates, Some(from), Some(to)), value)
         == SumOf(LinesDated(journal, dates, None, Some(to)), value)
  {
    if journal != [] {
      var n := |journal| - 1;
      PeriodsAddUp(journal[..n], dates[..n], from, to, value);
      EntryAdds(journal, dates, None, Some(from - 1), value);
      EntryAdds(journal, dates, Some(from), Some(to), value);
      EntryAdds(journal, dates, None, Some(to), value);
      hide LinesDated;
    }
  }

  lemma EntryAdds(journal: seq<Entry>, dates: seq<int>, from: Option<int>, to: Option<int>, value: Line -> int)
    requires |dates| == |journal| && journal != []
    ensures var n := |journal| - 1;
            SumOf(LinesDated(journal, dates, from, to), value)
            == SumOf(LinesDated(journal[..n], dates[..n], from, to), value) + if IsDated(dates[n], from, to) then SumOf(journal[n].lines, value) else 0
  {
    var n := |journal| - 1;
    EntryDated(journal, dates, from, to);
    hide SumOf, LinesDated, IsDated;
    SumOfKept(LinesDated(journal[..n], dates[..n], from, to), journal[n].lines, IsDated(dates[n], from, to), value);
  }

  lemma EntryDated(journal: seq<Entry>, dates: seq<int>, from: Option<int>, to: Option<int>)
    requires |dates| == |journal| && journal != []
    ensures var n := |journal| - 1;
            LinesDated(journal, dates, from, to)
            == LinesDated(journal[..n], dates[..n], from, to) + if IsDated(dates[n], from, to) then journal[n].lines else []
  {
  }

  lemma SumOfKept(lines: seq<Line>, more: seq<Line>, kept: bool, value: Line -> int)
    ensures SumOf(lines + (if kept then more else []), value) == SumOf(lines, value) + if kept then SumOf(more, value) else 0
  {
    hide SumOf;
    if kept {
      SumOfParts(lines, more, value);
    } else {
      assert lines + [] == lines;
    }
  }

  lemma {:induction false} WholeEntriesBalance(journal: seq<Entry>, dates: seq<int>, from: Option<int>, to: Option<int>)
    requires |dates| == |journal| && forall e :: 0 <= e < |journal| ==> Balanced(journal[e].lines)
    ensures Balanced(LinesDated(journal, dates, from, to))
  {
    if journal != [] {
      WholeEntriesBalance(journal[..|journal| - 1], dates[..|journal| - 1], from, to);
      EntryAdds(journal, dates, from, to, DebitOf());
      EntryAdds(journal, dates, from, to, CreditOf());
      hide LinesDated, IsDated, SumOf, DebitOf, CreditOf;
    }
  }

  /** In every reachable state, whatever the dates and the range, both reports balance; reversed entries and their reversals count. */
  lemma ReportsBalance(b: Books, dates: seq<int>, from: int, to: int, accounts: seq<Listed>, includeZero: bool)
    requires Inv(b) && |dates| == |b.journal|
    requires var opening, period := LinesDated(b.journal, dates, None, Some(from - 1)), LinesDated(b.journal, dates, Some(from), Some(to));
             ListsAll(accounts, opening) && ListsAll(accounts, period) && ListsAll(accounts, LinesDated(b.journal, dates, None, Some(to)))
    ensures var rows := TrialRows(accounts, LinesDated(b.journal, dates, None, Some(from - 1)), LinesDated(b.journal, dates, Some(from), Some(to)), includeZero);
            ColumnTotals(rows).openingDebit == ColumnTotals(rows).openingCredit && ColumnTotals(rows).closingDebit == ColumnTotals(rows).closingCredit
            && ColumnTotals(rows).periodDebit == ColumnTotals(rows).periodCredit
    ensures var lines := LinesDated(b.journal, dates, None, Some(to));
            Section(accounts, lines, AssetType)
            == Section(accounts, lines, LiabilityType) + Section(accounts, lines, EquityType) + RetainedEarnings(accounts, lines)
  {
    forall e | 0 <= e < |b.journal|
      ensures Balanced(b.journal[e].lines)
    {
      assert EntryPaired(b.journal, e);
    }
    hide Inv;
    var opening, period := LinesDated(b.journal, dates, None, Some(from - 1)), LinesDated(b.journal, dates, Some(from), Some(to));
    WholeEntriesBalance(b.journal, dates, None, Some(from - 1));
    WholeEntriesBalance(b.journal, dates, Some(from), Some(to));
    WholeEntriesBalance(b.journal, dates, None, Some(to));
    SumOfParts(opening, period, DebitOf());
    SumOfParts(opening, period, CreditOf());
    TrialBalanceAgreesExactlyWhen(accounts, opening, period, includeZero);
    BalanceSheetAgreesExactlyWhen(accounts, LinesDated(b.journal, dates, None, Some(to)));
  }
}
