/** The shop's reports: the dashboard, the daily sales page and the yearly
    profit and loss statement. Each database query becomes a filter over a
    table and each `aggregate(Sum(...)) or 0` a sum, which is 0 over an empty
    selection. */
module Reports {
  import opened Optional
  import opened Seqs
  import opened Models

  // ---------------------------------------------------------------------
  // Terms that are summed, and the selections they are summed over

  function TotalPrice(s: Sale): int
  {
    s.totalPrice
  }

  function Quantity(s: Sale): int
  {
    s.quantity
  }

  function ExpenseAmount(e: Expense): int
  {
    e.amount
  }

  function SaleStamp(s: Sale): Stamp
  {
    s.saleDate
  }

  function ExpenseStamp(e: Expense): Stamp
  {
    e.dateAdded
  }

  /** What a product's stock is worth at its selling price. */
  function LineValue(p: Product): int
  {
    p.price * p.stockQuantity
  }

  /** Income from a set of sales: the sum of their total prices. */
  function Revenue(sales: seq<Sale>): int
  {
    Sum(sales, TotalPrice)
  }

  /** Units sold in a set of sales. */
  function ItemsSold(sales: seq<Sale>): int
  {
    Sum(sales, Quantity)
  }

  /** The sale was made on calendar day `day` (`sale_date__date=day`). */
  function OnDay(day: int): Sale -> bool
  {
    (s: Sale) => s.saleDate.day == day
  }

  function SalesOn(sales: seq<Sale>, day: int): (r: seq<Sale>)
    ensures forall s :: s in r <==> s in sales && s.saleDate.day == day
  {
    Where(sales, OnDay(day))
  }

  /** Dated in month `m` of year `y` (`__year=y, __month=m`). */
  function InMonth<T>(stamp: T -> Stamp, y: int, m: int): T -> bool
  {
    (x: T) => stamp(x).year == y && stamp(x).month == m
  }

  /** Dated in year `y`. */
  function InYear<T>(stamp: T -> Stamp, y: int): T -> bool
  {
    (x: T) => stamp(x).year == y
  }

  // ---------------------------------------------------------------------
  // Dashboard figures that are single expressions

  /** The stock threshold below which the dashboard lists a product. */
  const LowStockLimit: int := 5

  function IsLowStock(p: Product): bool
  {
    p.stockQuantity < LowStockLimit
  }

  /** The products with fewer than five units in stock, in table order. */
  function LowStock(ps: seq<Product>): (r: seq<Product>)
    ensures |r| <= |ps|
    ensures forall p :: p in r <==> p in ps && p.stockQuantity < 5
  {
    Where(ps, IsLowStock)
  }

  /** The selling-price value of all stock: price times stock, summed. */
  function StockValue(ps: seq<Product>): int
  {
    Sum(ps, LineValue)
  }

  /** When every product has stock and a price that are not negative, the
      stock value is not negative. */
  lemma {:induction false} StockValueNonNegative(ps: seq<Product>)
    requires forall p :: p in ps ==> p.price >= 0 && p.stockQuantity >= 0
    ensures StockValue(ps) >= 0
    decreases |ps|
  {
    if ps != [] {
      assert forall p :: p in ps[..|ps| - 1] ==> p in ps;
      StockValueNonNegative(ps[..|ps| - 1]);
      assert ps[|ps| - 1] in ps;
    }
  }

  /** A day with no sales has no income and no items sold. */
  lemma {:induction false} QuietDay(sales: seq<Sale>, day: int)
    requires forall s :: s in sales ==> s.saleDate.day != day
    ensures SalesOn(sales, day) == []
    ensures Revenue(SalesOn(sales, day)) == 0 && ItemsSold(SalesOn(sales, day)) == 0
  {
    SumWhereNone(sales, OnDay(day), TotalPrice);
  }

  // ---------------------------------------------------------------------
  // The dashboard (`home`)

  datatype Dashboard = Dashboard(
    todaysSales: int,
    todaysOrders: nat,
    totalProducts: nat,
    totalValue: int,
    lowStockCount: nat,
    chartSales: seq<int>,
    lowStockProducts: seq<Product>,
    recentSales: seq<Sale>)

  /** The dashboard for calendar day `today`. The chart holds the income of
      each of the last seven days, oldest first and today last. Sales are
      listed oldest first in `sales`, so the five most recent are the first
      five of the reversed table. */
  method Home(products: seq<Product>, sales: seq<Sale>, today: int) returns (d: Dashboard)
    ensures d.todaysSales == Revenue(SalesOn(sales, today))
    ensures d.todaysOrders == |SalesOn(sales, today)|
    ensures d.totalProducts == |products|
    ensures d.totalValue == StockValue(products)
    ensures d.lowStockCount == |LowStock(products)|
    ensures |d.chartSales| == 7
    ensures forall i :: 0 <= i < 7 ==> d.chartSales[i] == Revenue(SalesOn(sales, today - 6 + i))
    ensures d.chartSales[6] == d.todaysSales
    ensures d.lowStockProducts == Take(LowStock(products), 5)
    ensures d.recentSales == Take(Reverse(sales), 5)
  {
    var todays := SalesOn(sales, today);
    var todaysSales := Revenue(todays);
    var lowStock := LowStock(products);
    var chart: seq<int> := [];
    var i := 6;
    while i >= 0
      invariant -1 <= i <= 6
      invariant |chart| == 6 - i
      invariant forall k :: 0 <= k < |chart| ==> chart[k] == Revenue(SalesOn(sales, today - 6 + k))
    {
      var day := today - i;
      var daySales := Revenue(SalesOn(sales, day));
      chart := chart + [daySales];
      i := i - 1;
    }
    d := Dashboard(
      todaysSales, |todays|, |products|, StockValue(products), |lowStock|,
      chart, Take(lowStock, 5), Take(Reverse(sales), 5));
  }

  // ---------------------------------------------------------------------
  // The daily sales page (`daily_sales_view`)

  datatype DailyReport = DailyReport(sales: seq<Sale>, income: int, itemsSold: int)

  /** Today's sales, newest first, with their income and the number of
      items sold. */
  function DailySales(sales: seq<Sale>, today: int): (r: DailyReport)
    ensures forall s :: s in r.sales <==> s in sales && s.saleDate.day == today
  {
    var todays := SalesOn(sales, today);
    ReverseAt(todays);
    assert forall s :: s in Reverse(todays) <==> s in todays by {
      forall s | s in todays
        ensures s in Reverse(todays)
      {
        var k :| 0 <= k < |todays| && todays[k] == s;
        assert Reverse(todays)[|todays| - 1 - k] == s;
      }
    }
    DailyReport(Reverse(todays), Revenue(todays), ItemsSold(todays))
  }

  /** The daily page lists its sales newest first, yet its income and items
      are the totals of exactly the sales it lists, and its income is the
      dashboard's figure for today. */
  lemma {:induction false} DailyTotalsMatchListing(sales: seq<Sale>, today: int)
    ensures var r := DailySales(sales, today);
      r.income == Revenue(r.sales) && r.itemsSold == ItemsSold(r.sales)
      && r.income == Revenue(SalesOn(sales, today))
  {
    var todays := SalesOn(sales, today);
    SumReverse(todays, TotalPrice);
    SumReverse(todays, Quantity);
  }

  /** With no sales today, the daily page shows 0 income and 0 items. */
  lemma {:induction false} DailySalesQuiet(sales: seq<Sale>, today: int)
    requires forall s :: s in sales ==> s.saleDate.day != today
    ensures DailySales(sales, today) == DailyReport([], 0, 0)
  {
    QuietDay(sales, today);
  }

  // ---------------------------------------------------------------------
  // Profit and loss (`profit_loss_view`)

  /** The cost price of the product with primary key `pk`; 0 for a key that
      is not in the table (which does not happen in a consistent store). */
  function CostPriceOf(ps: seq<Product>, pk: nat): int
  {
    match ProductIndex(ps, pk)
    case Some(i) => ps[i].costPrice
    case None => 0
  }

  /** The cost of the goods in one sale, at the product's current cost
      price. */
  function SaleCost(ps: seq<Product>): Sale -> int
  {
    (s: Sale) => CostPriceOf(ps, s.product) * s.quantity
  }

  /** The sum of `f` over the elements of `s` dated in month `m` of year `y`. */
  function MonthSum<T(!new)>(s: seq<T>, stamp: T -> Stamp, f: T -> int, y: int, m: int): int
  {
    Sum(Where(s, InMonth(stamp, y, m)), f)
  }

  /** `MonthSum` added up over months 1 to `k`. */
  function MonthsSum<T(!new)>(s: seq<T>, stamp: T -> Stamp, f: T -> int, y: int, k: nat): int
  {
    if k == 0 then 0 else MonthsSum(s, stamp, f, y, k - 1) + MonthSum(s, stamp, f, y, k)
  }

  function MonthRevenue(sales: seq<Sale>, y: int, m: int): int
  {
    MonthSum(sales, SaleStamp, TotalPrice, y, m)
  }

  function MonthCogs(sales: seq<Sale>, ps: seq<Product>, y: int, m: int): int
  {
    MonthSum(sales, SaleStamp, SaleCost(ps), y, m)
  }

  function MonthOpex(expenses: seq<Expense>, y: int, m: int): int
  {
    MonthSum(expenses, ExpenseStamp, ExpenseAmount, y, m)
  }

  /** One line of the monthly table. */
  datatype MonthRow = MonthRow(
    month: Month,
    revenue: int,
    cogs: int,
    grossProfit: int,
    expenses: int,
    netProfit: int)

  function Row(sales: seq<Sale>, ps: seq<Product>, expenses: seq<Expense>, y: int, m: Month): MonthRow
  {
    var revenue := MonthRevenue(sales, y, m);
    var cogs := MonthCogs(sales, ps, y, m);
    var opex := MonthOpex(expenses, y, m);
    MonthRow(m, revenue, cogs, revenue - cogs, opex, revenue - cogs - opex)
  }

  /** The table's lines for months 1 to `k`. */
  function Rows(sales: seq<Sale>, ps: seq<Product>, expenses: seq<Expense>, y: int, k: nat): (r: seq<MonthRow>)
    requires k <= 12
    ensures |r| == k
    ensures forall i :: 0 <= i < k ==> r[i].month == i + 1
  {
    if k == 0 then [] else Rows(sales, ps, expenses, y, k - 1) + [Row(sales, ps, expenses, y, k)]
  }

  function RowNet(r: MonthRow): int
  {
    r.netProfit
  }

  datatype ProfitLossReport = ProfitLossReport(
    year: int,
    monthlyReport: seq<MonthRow>,
    totalRevenue: int,
    totalExpenses: int,
    grossProfit: int,
    netProfit: int,
    profitMargin: real)

  /** The cost of goods sold in a month's sales: each sale's quantity at its
      product's current cost price, added up one sale at a time. */
  method GoodsCost(monthlySales: seq<Sale>, products: seq<Product>) returns (cogs: int)
    ensures cogs == Sum(monthlySales, SaleCost(products))
  {
    cogs := 0;
    for j := 0 to |monthlySales|
      invariant cogs == Sum(monthlySales[..j], SaleCost(products))
    {
      SumPrefix(monthlySales, j, SaleCost(products));
      cogs := cogs + CostPriceOf(products, monthlySales[j].product) * monthlySales[j].quantity;
    }
    assert monthlySales[..|monthlySales|] == monthlySales;
  }

  /** The figures of month `m` of year `y`. */
  method MonthFigures(sales: seq<Sale>, products: seq<Product>, expenses: seq<Expense>, y: int, m: Month)
    returns (row: MonthRow)
    ensures row == Row(sales, products, expenses, y, m)
  {
    var monthlySales := Where(sales, InMonth(SaleStamp, y, m));
    var revenue := Revenue(monthlySales);
    var cogs := GoodsCost(monthlySales, products);
    var monthlyExpenses := Where(expenses, InMonth(ExpenseStamp, y, m));
    var opex := Sum(monthlyExpenses, ExpenseAmount);
    var grossProfit := revenue - cogs;
    var netProfit := grossProfit - opex;
    row := MonthRow(m, revenue, cogs, grossProfit, opex, netProfit);
  }

  /** The profit and loss statement for the year of `today`. The year's
      totals take in all twelve months; the table shows only the months up
      to the current one. The margin is a percentage of revenue, and 0 when
      there is no positive revenue. */
  method ProfitLoss(sales: seq<Sale>, products: seq<Product>, expenses: seq<Expense>, today: Stamp)
    returns (report: ProfitLossReport)
    ensures report.year == today.year
    ensures report.monthlyReport == Rows(sales, products, expenses, today.year, today.month)
    ensures report.totalRevenue == MonthsSum(sales, SaleStamp, TotalPrice, today.year, 12)
    ensures report.totalExpenses == MonthsSum(expenses, ExpenseStamp, ExpenseAmount, today.year, 12)
    ensures report.grossProfit
            == report.totalRevenue - MonthsSum(sales, SaleStamp, SaleCost(products), today.year, 12)
    ensures report.netProfit == report.grossProfit - report.totalExpenses
    ensures report.totalRevenue > 0 ==>
              report.profitMargin == (report.netProfit as real / report.totalRevenue as real) * 100.0
    ensures report.totalRevenue <= 0 ==> report.profitMargin == 0.0
  {
    var y := today.year;
    var monthlyReport, totalRevenue, totalCogs, totalOpex := MonthLoop(sales, products, expenses, today);
    var totalGrossProfit := totalRevenue - totalCogs;
    var totalNetProfit := totalGrossProfit - totalOpex;
    var profitMargin: real;
    if totalRevenue > 0 {
      profitMargin := (totalNetProfit as real / totalRevenue as real) * 100.0;
    } else {
      profitMargin := 0.0;
    }
    report := ProfitLossReport(y, monthlyReport, totalRevenue, totalOpex, totalGrossProfit, totalNetProfit, profitMargin);
  }

  /** The loop over months 1 to 12: every month goes into the year's
      totals, and the months up to the current one into the table. */
  method MonthLoop(sales: seq<Sale>, products: seq<Product>, expenses: seq<Expense>, today: Stamp)
    returns (monthlyReport: seq<MonthRow>, totalRevenue: int, totalCogs: int, totalOpex: int)
    ensures monthlyReport == Rows(sales, products, expenses, today.year, today.month)
    ensures totalRevenue == MonthsSum(sales, SaleStamp, TotalPrice, today.year, 12)
    ensures totalCogs == MonthsSum(sales, SaleStamp, SaleCost(products), today.year, 12)
    ensures totalOpex == MonthsSum(expenses, ExpenseStamp, ExpenseAmount, today.year, 12)
  {
    var y := today.year;
    monthlyReport := [];
    totalRevenue, totalCogs, totalOpex := 0, 0, 0;
    for m := 1 to 13
      invariant totalRevenue == MonthsSum(sales, SaleStamp, TotalPrice, y, m - 1)
      invariant totalCogs == MonthsSum(sales, SaleStamp, SaleCost(products), y, m - 1)
      invariant totalOpex == MonthsSum(expenses, ExpenseStamp, ExpenseAmount, y, m - 1)
      invariant monthlyReport == Rows(sales, products, expenses, y, Min(m - 1, today.month))
    {
      var row := MonthFigures(sales, products, expenses, y, m);
      totalRevenue := totalRevenue + row.revenue;
      totalCogs := totalCogs + row.cogs;
      totalOpex := totalOpex + row.expenses;
      if m <= today.month {
        RowsSnoc(sales, products, expenses, y, m);
        monthlyReport := monthlyReport + [row];
      }
    }
  }

  /** The table for months 1 to `m` is the one for months 1 to `m - 1`
      followed by month `m`'s line. */
  lemma {:induction false} RowsSnoc(sales: seq<Sale>, ps: seq<Product>, expenses: seq<Expense>, y: int, m: Month)
    ensures Rows(sales, ps, expenses, y, m) == Rows(sales, ps, expenses, y, m - 1) + [Row(sales, ps, expenses, y, m)]
  {
  }

  function Min(a: nat, b: nat): nat
  {
    if a <= b then a else b
  }

  // ---------------------------------------------------------------------
  // What the statement adds up to

  /** Adding one element to a table adds its term to the month it is dated
      in, if that month is among the first `k` of year `y`. */
  lemma {:induction false} MonthsSumSnoc<T(!new)>(s: seq<T>, x: T, stamp: T -> Stamp, f: T -> int, y: int, k: nat)
    ensures MonthsSum(s + [x], stamp, f, y, k)
            == MonthsSum(s, stamp, f, y, k)
               + (if stamp(x).year == y && stamp(x).month <= k then f(x) else 0)
    decreases k
  {
    if k > 0 {
      MonthsSumSnoc(s, x, stamp, f, y, k - 1);
      WhereAppend(s, x, InMonth(stamp, y, k));
      SumAppend(Where(s, InMonth(stamp, y, k)), x, f);
    }
  }

  /** The twelve months of a year partition it: summing month by month
      gives the sum over everything dated in that year. */
  lemma {:induction false} YearPartition<T(!new)>(s: seq<T>, stamp: T -> Stamp, f: T -> int, y: int)
    ensures MonthsSum(s, stamp, f, y, 12) == Sum(Where(s, InYear(stamp, y)), f)
    decreases |s|
  {
    if s == [] {
      LaterMonthsEmpty(s, stamp, f, y, 0, 12);
    } else {
      var init, x := s[..|s| - 1], s[|s| - 1];
      assert s == init + [x];
      YearPartition(init, stamp, f, y);
      YearPartitionStep(init, x, stamp, f, y);
    }
  }

  /** One step of `YearPartition`: the partition survives adding an element. */
  lemma {:induction false} YearPartitionStep<T(!new)>(init: seq<T>, x: T, stamp: T -> Stamp, f: T -> int, y: int)
    requires MonthsSum(init, stamp, f, y, 12) == Sum(Where(init, InYear(stamp, y)), f)
    ensures MonthsSum(init + [x], stamp, f, y, 12) == Sum(Where(init + [x], InYear(stamp, y)), f)
  {
    MonthsSumSnoc(init, x, stamp, f, y, 12);
    WhereAppend(init, x, InYear(stamp, y));
    SumAppend(Where(init, InYear(stamp, y)), x, f);
  }

  /** The year's revenue, cost of goods and expenses are the sums over
      everything dated in that year, months beyond the current one
      included. */
  lemma {:induction false} YearTotals(sales: seq<Sale>, ps: seq<Product>, expenses: seq<Expense>, y: int)
    ensures MonthsSum(sales, SaleStamp, TotalPrice, y, 12) == Revenue(Where(sales, InYear(SaleStamp, y)))
    ensures MonthsSum(sales, SaleStamp, SaleCost(ps), y, 12) == Sum(Where(sales, InYear(SaleStamp, y)), SaleCost(ps))
    ensures MonthsSum(expenses, ExpenseStamp, ExpenseAmount, y, 12)
            == Sum(Where(expenses, InYear(ExpenseStamp, y)), ExpenseAmount)
  {
    YearPartition(sales, SaleStamp, TotalPrice, y);
    YearPartition(sales, SaleStamp, SaleCost(ps), y);
    YearPartition(expenses, ExpenseStamp, ExpenseAmount, y);
  }

  /** The net profit of the first `k` lines adds up to their revenue less
      their cost of goods less their expenses. */
  lemma {:induction false} RowsNet(sales: seq<Sale>, ps: seq<Product>, expenses: seq<Expense>, y: int, k: nat)
    requires k <= 12
    ensures Sum(Rows(sales, ps, expenses, y, k), RowNet)
            == MonthsSum(sales, SaleStamp, TotalPrice, y, k)
               - MonthsSum(sales, SaleStamp, SaleCost(ps), y, k)
               - MonthsSum(expenses, ExpenseStamp, ExpenseAmount, y, k)
    decreases k
  {
    if k > 0 {
      RowsNet(sales, ps, expenses, y, k - 1);
      SumAppend(Rows(sales, ps, expenses, y, k - 1), Row(sales, ps, expenses, y, k), RowNet);
    }
  }

  /** The year's net profit is the sum of the twelve monthly net profits. */
  lemma {:induction false} NetIsSumOfMonthlyNets(sales: seq<Sale>, ps: seq<Product>, expenses: seq<Expense>, y: int)
    ensures Sum(Rows(sales, ps, expenses, y, 12), RowNet)
            == MonthsSum(sales, SaleStamp, TotalPrice, y, 12)
               - MonthsSum(sales, SaleStamp, SaleCost(ps), y, 12)
               - MonthsSum(expenses, ExpenseStamp, ExpenseAmount, y, 12)
  {
    RowsNet(sales, ps, expenses, y, 12);
  }

  /** A month with no sales and no expenses shows 0 everywhere. */
  lemma {:induction false} EmptyMonth(sales: seq<Sale>, ps: seq<Product>, expenses: seq<Expense>, y: int, m: Month)
    requires forall s :: s in sales ==> !(s.saleDate.year == y && s.saleDate.month == m)
    requires forall e :: e in expenses ==> !(e.dateAdded.year == y && e.dateAdded.month == m)
    ensures Row(sales, ps, expenses, y, m) == MonthRow(m, 0, 0, 0, 0, 0)
  {
    MonthSumZero(sales, SaleStamp, TotalPrice, y, m);
    MonthSumZero(sales, SaleStamp, SaleCost(ps), y, m);
    MonthSumZero(expenses, ExpenseStamp, ExpenseAmount, y, m);
  }

  /** Months after `k` contribute nothing when nothing is dated in them. */
  lemma {:induction false} LaterMonthsEmpty<T(!new)>(s: seq<T>, stamp: T -> Stamp, f: T -> int, y: int, k: nat, n: nat)
    requires k <= n
    requires forall x :: x in s ==> !(stamp(x).year == y && stamp(x).month > k)
    ensures MonthsSum(s, stamp, f, y, n) == MonthsSum(s, stamp, f, y, k)
    decreases n
  {
    if n > k {
      LaterMonthsEmpty(s, stamp, f, y, k, n - 1);
      MonthSumZero(s, stamp, f, y, n);
    }
  }

  /** A month in which nothing is dated sums to 0. */
  lemma {:induction false} MonthSumZero<T(!new)>(s: seq<T>, stamp: T -> Stamp, f: T -> int, y: int, m: int)
    requires forall x :: x in s ==> !(stamp(x).year == y && stamp(x).month == m)
    ensures MonthSum(s, stamp, f, y, m) == 0
  {
    SumWhereNone(s, InMonth(stamp, y, m), f);
  }

  /** When nothing is dated after the current month, the table's net
      column adds up to the statement's net profit. */
  lemma {:induction false} TableMatchesTotals(sales: seq<Sale>, ps: seq<Product>, expenses: seq<Expense>, today: Stamp)
    requires forall s :: s in sales ==> !(s.saleDate.year == today.year && s.saleDate.month > today.month)
    requires forall e :: e in expenses ==> !(e.dateAdded.year == today.year && e.dateAdded.month > today.month)
    ensures Sum(Rows(sales, ps, expenses, today.year, today.month), RowNet)
            == MonthsSum(sales, SaleStamp, TotalPrice, today.year, 12)
               - MonthsSum(sales, SaleStamp, SaleCost(ps), today.year, 12)
               - MonthsSum(expenses, ExpenseStamp, ExpenseAmount, today.year, 12)
  {
    var y, k := today.year, today.month;
    RowsNet(sales, ps, expenses, y, k);
    LaterMonthsEmpty(sales, SaleStamp, TotalPrice, y, k, 12);
    LaterMonthsEmpty(sales, SaleStamp, SaleCost(ps), y, k, 12);
    LaterMonthsEmpty(expenses, ExpenseStamp, ExpenseAmount, y, k, 12);
  }
}
