# Shop inventory and point of sale: a Dafny model

This project models the core of a small Django shop application.

- **The store.** It holds categories, products and the ordered list of sales. Three operations change it:
  - selling a product deducts stock and records a sale;
  - a superuser can delete a product, which also deletes its sales;
  - deleting a category also deletes its products and their sales.
- **The reports.** The dashboard shows today's income and orders, the stock value, the low-stock list, a seven-day income chart and the recent sales. The daily sales page lists today's sales with their totals. The profit and loss statement gives a month-by-month table and the year's totals.
- **The `rupees` template filter.** It writes an amount with two decimals and groups the integer part in the Indian lakh/crore pattern (2540400 becomes "25,40,400.00").

Conventions:

- **Money** is held exactly, as whole numbers of paise. Every money field of the application is a decimal with two places.
- **Dates** are `Stamp` values:
  - a consecutive day number, so "six days before today" is `today - 6`;
  - the calendar year and month of that day.
  - The caller supplies both; the calendar that links them is not modelled.
- **Tables** are sequences of records in primary-key order, with unique keys.
- **Queries** become filters (`Seqs.Where`). Each `aggregate(Sum(...)) or 0` becomes a sum (`Seqs.Sum`), which is 0 over an empty selection.

Modules:

| file | module | contents |
|---|---|---|
| `optional.dfy` | `Optional` | the `Option` type |
| `seqs.dfy` | `Seqs` | sums, filters, reversal, prefixes |
| `text.dfy` | `Text` | decimal digits, `join`, comma removal |
| `money.dfy` | `Money` | two-decimal text of an amount and its parser |
| `models.dfy` | `Models` | records, expense categories, string renderings |
| `currency_filters.dfy` | `CurrencyFilters` | the `rupees` filter |
| `reports.dfy` | `Reports` | dashboard, daily sales, profit and loss |
| `inventory.dfy` | `Inventory` | the store class and its operations |

The state-changing views are modelled in two layers:

- `Inventory.Store` is a class. Its methods update its fields in place.
- Each method is proved against a function on the table contents (`Sell`, `DeleteProductOp`, `DeleteCategoryOp`). The lemmas state what the source promises about those functions.

The loops of the source keep their form:

- the grouping loop of `rupees`;
- the seven-day chart loop of `home`;
- the month loop and the inner cost-of-goods loop of `profit_loss_view`.

Each is a method whose contract ties its result to a specification function, and the properties are proved about that function.

Where the code and its design description disagree, the model follows the code:

- The year's totals take in all twelve months of the year, future months included. Only the table stops at the current month.
- The margin guard is `total_revenue_year > 0`, so the margin is 0 for a negative revenue as well as for 0.
- Stock quantity is a plain integer with no lower bound.

## Model

| member | source | states |
|---|---|---|
| CurrencyFilters.Rupees | core/templatetags/currency_filters.py:11-35 | The filter's own steps give `RupeesText(value)`: `None` gives "0.00", a non-number is returned unchanged, and an amount is written with two decimals. The pairs loop (from the right, step 2, `max(i - 1, 0)`) builds exactly `PairsFromRight(rest)`. |
| CurrencyFilters.PairsFromRight | core/templatetags/currency_filters.py:29-32 | The pairs list is empty exactly when the part before the last three characters is empty. |
| CurrencyFilters.PairsShape | core/templatetags/currency_filters.py:30-32 | Every pair the loop appends has two characters, except the last one appended (the leftmost), which has one or two and begins `rest`. |
| CurrencyFilters.PairsConcat | core/templatetags/currency_filters.py:29-34 | Read in reverse order (`vals[::-1]`), the pairs spell `rest` again. |
| CurrencyFilters.PairsCommaFree | core/templatetags/currency_filters.py:30-32 | No pair holds a comma when `rest` holds none. |
| CurrencyFilters.GroupsLast | core/templatetags/currency_filters.py:25-26 | The last group is `integer_part[-3:]`, with at least one group in front of it. |
| CurrencyFilters.GroupsFirst | core/templatetags/currency_filters.py:28-34 | The leftmost group has one or two characters and starts with the integer part's first character. |
| CurrencyFilters.GroupsMiddle | core/templatetags/currency_filters.py:28-34 | Every group between the leftmost and the last has exactly two characters. |
| CurrencyFilters.GroupsCommaFree | core/templatetags/currency_filters.py:25-34 | No group holds a comma. |
| CurrencyFilters.GroupsConcat | core/templatetags/currency_filters.py:25-34 | Read left to right, the groups spell the integer part. |
| CurrencyFilters.GroupedFrontStrips | core/templatetags/currency_filters.py:34-35 | Removing the commas from the part before the point gives back the integer part. |
| CurrencyFilters.GroupedStrips | core/templatetags/currency_filters.py:22-35 | Removing every comma from a grouped amount gives the integer part, the point and the decimals. |
| CurrencyFilters.GroupedUnchangedIffShort | core/templatetags/currency_filters.py:22-23 | Grouping leaves the text unchanged if and only if the integer part has at most three characters. |
| CurrencyFilters.RupeesStripsToFixed2 | core/templatetags/currency_filters.py:16-35 | For every amount, removing every comma from the filter's output gives the plain two-decimal text. |
| CurrencyFilters.RupeesUnchangedIffShort | core/templatetags/currency_filters.py:17-23 | The output is the plain two-decimal text if and only if its integer part has at most three characters. |
| CurrencyFilters.RupeesGroupShape | core/templatetags/currency_filters.py:19-35 | For a long integer part: the output is the groups joined by commas, then the point and the unchanged two decimals. The group before the point is the last three characters. The groups before it have two characters each, except the leftmost, which has one or two. |
| CurrencyFilters.RupeesExample | core/templatetags/currency_filters.py:8 | The documented example: 2540400 is written "25,40,400.00". |
| CurrencyFilters.ExampleGrouped | core/templatetags/currency_filters.py:8 | The integer part "2540400" with decimals "00" is grouped as "25,40,400.00". |
| CurrencyFilters.RupeesSignAsDigit | core/templatetags/currency_filters.py:17-35 | As written, the minus sign is grouped like a digit: -123 gives "-,123.00" and -12345 gives "-,12,345.00". |
| CurrencyFilters.RupeesSignedCorrect | core/templatetags/currency_filters.py:17-35 | With the sign set aside, removing the commas still gives the two-decimal text, and non-negative amounts come out as before. |
| CurrencyFilters.RupeesSignedNegative | core/templatetags/currency_filters.py:17-35 | With the sign set aside, a negative amount's minus sign is followed directly by a digit, never by a comma. |
| CurrencyFilters.GroupedStartsLikeIntegerPart | core/templatetags/currency_filters.py:34-35 | The grouped text starts with the integer part's first character. |
| CurrencyFilters.RupeesStartsWithDigit | core/templatetags/currency_filters.py:16-35 | The output for a non-negative amount starts with a digit. |
| Money.IntPart | core/templatetags/currency_filters.py:17-19 | The integer part of the two-decimal text is non-empty and holds no comma. For a non-negative amount it is all digits. |
| Money.DecPart | core/templatetags/currency_filters.py:17-20 | The decimal part is exactly two digits. |
| Money.DecPartValue | core/templatetags/currency_filters.py:17 | The two decimals denote the amount's paise modulo 100. |
| Money.Fixed2Negate | core/templatetags/currency_filters.py:17 | A negative amount's text is a minus sign followed by its magnitude's text. |
| Money.Fixed2RoundTrip | core/models.py:18-19 | The two-decimal text of every amount (a field with `decimal_places=2`) reads back as the same amount. |
| Models.ProductIndex | core/views.py:171 | Looking up a product by primary key finds a row with that key, or reports that no row has it (`get_object_or_404`). |
| Models.ParseCategory | core/models.py:43-53 | A stored category value is accepted if and only if it is one of the five codes, and it then means the category with that code. |
| Models.CategoryCodeRoundTrip | core/models.py:43-49 | Every category's code is accepted as that category, and distinct categories have distinct codes. |
| Models.DefaultCategoryAccepted | core/models.py:48-53 | The default category is stored as "Other", is an accepted choice, and is shown as "Other". |
| Models.SaleLabel | core/models.py:36-37 | A sale renders as its quantity followed by " x ", and ends with the seller's name. |
| Models.SaleLabelQuantity | core/models.py:36-37 | The digits at the head of a sale's rendering are its quantity, read back exactly. |
| Models.ExpenseLabel | core/models.py:59-60 | An expense renders as its title, then " - " and the rupee sign, then an amount that reads back as the expense's amount. |
| Inventory.SellSucceeds | core/views.py:179-189 | When the product exists and 0 ≤ q ≤ stock, the sale goes through. That product's stock drops by exactly q. Exactly one sale is appended after the earlier ones, with quantity q, total `price × q`, the seller and the time. No other product and no category changes. |
| Inventory.SellRefused | core/views.py:171-179 | A missing product, an invalid quantity, or q > stock changes nothing and records no sale. For q > stock the outcome reports the available stock, as the error message does (lines 193-194). |
| Inventory.SellKeepsStockNonNegative | core/views.py:179-181 | If no product had negative stock before a sale, none has after it. |
| Inventory.SellKeepsConsistent | core/views.py:179-189 | Selling keeps keys unique and every foreign key valid. |
| Inventory.SellConservesValue | core/views.py:181-187 | A sale moves value from stock to revenue. The stock value (`Σ price × stock`) plus the income of all sales is unchanged. |
| Inventory.Store.SellProduct | core/views.py:170-201 | The view's update of the store equals `Sell` on the old contents, and the store stays consistent. |
| Inventory.RemoveProduct | core/models.py:30 | Deleting a product keeps exactly the other products and exactly the sales of other products: the cascade on `Sale.product`. |
| Inventory.DeleteProductNeedsSuperuser | core/views.py:111-112 | A user who is not a superuser is refused and nothing changes. |
| Inventory.DeleteProductCascades | core/views.py:110-119 | A product is deleted if and only if a superuser asks for an existing one with GET. Otherwise nothing changes. After deletion the product and every sale of it are gone, and every other product and sale remains. |
| Inventory.DeleteProductKeepsConsistent | core/views.py:110-119 | Deleting a product keeps the store consistent. |
| Inventory.Store.DeleteProduct | core/views.py:110-119 | The view's update equals `DeleteProductOp` on the old contents, and the store stays consistent. |
| Inventory.RemoveCategory | core/models.py:17 | Deleting a category keeps exactly the other categories, the products of other categories, and the sales of products not in it: the cascades on `Product.category` and `Sale.product`. |
| Inventory.DeleteCategoryCascades | core/views.py:155-158 | A category is deleted if and only if it exists. After deletion, none of its products remain. Every product of another category remains. Every remaining sale refers to a remaining product, and every sale of a remaining product remains. |
| Inventory.SalesOfKeptProducts | core/models.py:17-30 | After a category is deleted, a sale survives exactly when its product survives. |
| Inventory.DeleteCategoryKeepsConsistent | core/views.py:155-158 | Deleting a category keeps the store consistent. |
| Inventory.Store.DeleteCategory | core/views.py:154-158 | The view's update equals `DeleteCategoryOp` on the old contents, and the store stays consistent. |
| Reports.SalesOn | core/views.py:28 | The sales of a day are exactly the sales dated that day. |
| Reports.LowStock | core/views.py:39-40 | The low-stock products are exactly the products with fewer than 5 units in stock. |
| Reports.StockValueNonNegative | core/views.py:35-36 | With non-negative prices and stock, the stock value is non-negative. |
| Reports.QuietDay | core/views.py:28-30 | A day without sales has income 0 and 0 items (`or 0`). |
| Reports.Home | core/views.py:23-69 | The dashboard fields:<br>• today's income and order count;<br>• the number of products and the stock value;<br>• the low-stock count and the first five low-stock products;<br>• the five most recent sales;<br>• a 7-entry chart whose entry i is the income of day `today - 6 + i`, so the last entry equals today's income. |
| Reports.DailySales | core/views.py:240-259 | The daily page lists exactly today's sales. |
| Reports.DailyTotalsMatchListing | core/views.py:245-251 | The daily income and items sold are the totals of exactly the sales listed, newest first. The income equals the dashboard's figure for today. |
| Reports.DailySalesQuiet | core/views.py:248-251 | With no sales today, the daily page shows no sales, 0 income and 0 items. |
| Reports.Rows | core/views.py:303-314 | The table for months 1 to k has k rows, row i for month i + 1, in month order. |
| Reports.GoodsCost | core/views.py:285-287 | The loop adds up `cost_price × quantity` over the month's sales, using each product's current cost price. |
| Reports.MonthFigures | core/views.py:280-295 | A month's row holds its revenue, cost of goods, expenses, gross profit = revenue − cogs, and net = gross − expenses. |
| Reports.MonthLoop | core/views.py:279-314 | The month loop yields the table for months up to `today.month` and the twelve-month totals of revenue, cost of goods and expenses. |
| Reports.ProfitLoss | core/views.py:264-337 | The statement:<br>• the table has `today.month` rows;<br>• the totals cover all 12 months;<br>• gross profit = revenue − cost of goods, and net = gross − expenses;<br>• the margin is `net / revenue × 100` when revenue > 0 and 0 otherwise. |
| Reports.YearPartition | core/views.py:279-300 | Summing month by month over the twelve months gives the sum over everything dated in the year. |
| Reports.YearTotals | core/views.py:279-300 | The year's revenue, cost of goods and expenses equal the sums over the year's sales and expenses. |
| Reports.RowsNet | core/views.py:293-300 | The net profits of the first k rows add up to their revenue less their cost of goods less their expenses. |
| Reports.NetIsSumOfMonthlyNets | core/views.py:298-318 | The year's net profit equals the sum of the twelve monthly net profits. |
| Reports.EmptyMonth | core/views.py:281-295 | A month with no sales and no expenses has revenue, cost of goods, gross, expenses and net all 0. |
| Reports.LaterMonthsEmpty | core/views.py:279-300 | Months in which nothing is dated add nothing to the year's totals. |
| Reports.TableMatchesTotals | core/views.py:298-318 | When nothing is dated after the current month, the table's net column adds up to the statement's net profit. |

## Left out

- Request handling, `render`/`redirect`/`messages`, `@login_required` and form rendering are left out. `Inventory.Store.SellProduct` models the submission of a valid form: a quantity that fails the form's validation (negative) is the `InvalidQuantity` outcome, and a GET request, which only shows the form, is not modelled. `delete_product` takes the request method as the flag `isGet`.
- Concurrency is left out: each sale is one atomic step, although the source's check-then-decrement is not atomic under concurrent requests.
- Floating point is left out:
  - the `float(...)` conversions of chart and report figures;
  - the rounding of the margin (computed exactly as a `real`);
  - `float(value)` with `"{:.2f}"` in `rupees`. The filter takes an exact amount in paise, so values beyond a float's precision and `inf`/`nan` are not modelled.
- The `max_digits=10` bound of the money fields is not enforced.
- The clock and the calendar are left out. `timezone.now()`, `timedelta` and `strftime` (weekday and month names) are replaced by the caller-supplied `Stamp`, whose day number and year and month are not checked against each other. The chart's day labels and the table's month labels are not modelled.
- `Reports.Home`: recent sales are taken as the sales in reverse table order. This matches `order_by('-sale_date')` when sales are appended in time order (`auto_now_add`), and leaves the order of sales with equal timestamps unspecified.
- `Reports.Home`: the low-stock list is taken in table (primary-key) order, since the products table declares no ordering.
- `Reports.CostPriceOf` gives 0 for a sale whose product is missing. A consistent store has no such sale.
- Category and product render as their `name` field. No separate function models that.
- `Models.SaleLabel`: the contract pins the quantity prefix and the seller suffix, not the product name in between.
- `Models.ExpenseLabel`: the rupee sign is kept as the three characters the source text holds (a mis-encoded "₹"). The contract pins the title and the amount, not the separator.
- Other views are not modelled: `add_product`, `edit_product`, `add_category`, `manage_categories`, `product_detail`, `sales_history`, `profile`, `inventory_view`, `expenses_view`, `delete_expense`, the stub pages and the login redirect. They are form plumbing or unfiltered listings.
- The `Customer`, `Staff` and `Supplier` models are not modelled. No modelled operation uses them.
- `sold_by`/`added_by` user foreign keys are plain user names. Deleting users and its cascades is not modelled.

## Findings

| source | as written | input that shows it | evidently intended | confidence | as-written member | corrected member |
|---|---|---|---|---|---|---|
| core/templatetags/currency_filters.py:17-35 | The minus sign of a negative amount stays in the integer part and is grouped as if it were a digit. | -123 gives "-,123.00"; -12345 gives "-,12,345.00" | "-123.00" and "-12,345.00": the sign in front of the grouped magnitude | not executed | CurrencyFilters.RupeesSignAsDigit | CurrencyFilters.RupeesSignedCorrect |
