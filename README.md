# Deal tracker reporting, modelled in Dafny

This project models the reporting core of a small finance-and-insurance deal
tracker. A *deal* records one sold car: its date, stock number, customer name,
whether it was financed, six profit components (finance reserve and five
products: service contract `vsc`, `gap`, tire and wheel `tw`, `tricare`, `key`)
and the manager who closed it. Its `total_profit` is derived, never stored.

The report narrows the stored deals by an optional start date, an optional end
date (both inclusive) and an optional list of managers (empty means every
manager). It then computes the total profit, the deal count and profit per car,
and for each product how many deals sold it, plus the average number of products
per deal. It can also export the filtered deals as CSV rows. The landing page
lists the five most recently dated deals, latest first.

Modules:

- `Options`: the `Option` type for a blank form field.
- `Deals` (`deals.dfy`): the deal record, its defaults, its column limits,
  the manager choices and the derived total.
- `Report` (`report.dfy`): the filter stage, the profit and products
  summaries, and a worked two-deal example.
- `CsvExport` (`csv_export.dfy`): the header and the rows of the export.
- `Listing` (`listing.dfy`): the recent-deals listing.

Modelling choices:

- Stored deals are a `seq<Deal>` instead of a queryset. A date is an integer day
  number. Money is `real`, so sums and averages are exact.
- Each queryset `filter` is the function `Report.Filter` over one lookup
  (`deal_date__gte`, `deal_date__lte`, `manager__in`). `Report.GetFilteredDeals`
  reassigns a local sequence with up to three of them, as the view does.
- The profit total is computed as the view writes it: the sum of six column
  sums. It is proved equal to the sum of the deals' `total_profit`.
- A product count is a recursive count of deals with a positive amount. It is
  proved equal to the size of the set of positions where that product was sold.
- `avg_products_sold` divides the sum of five column counts by the deal count,
  so one may ask whether it really is "products per deal".
  `Report.CountsAddUpToProductsOnDeals` proves the five counts add up to the
  sum over deals of each deal's number of products. So the figure is exactly
  the per-deal average.
- CSV rows are sequences of typed field values (`CsvExport.Value`). The header
  row holds the column names as text.
- The ordering for the listing is an insertion sort by date, latest first. The
  contract of `Listing.RecentDeals` does not fix the order of deals with the
  same date. The source does not fix it either.

## Model

| member | source | states |
|---|---|---|
| Deals.TotalProfitIsSumOfComponents | deals/models.py:33-35 | `total_profit` is the sum of the six profit components, each counted once |
| Deals.TotalProfit | deals/models.py:33-35 | the derived `total_profit`, a function and not a stored field; no contract of its own: its meaning is pinned by Deals.TotalProfitIsSumOfComponents and Report.ColumnSumsAddUpToTotalProfit |
| Deals.NewDeal | deals/models.py:20-31 | a deal built from the defaults is financed, has manager "Victor", every component 0, and keeps the given date, stock number and names |
| Deals.ValidDeal | deals/models.py:15-31 | the `max_length` and `choices` rules of the columns; no contract of its own: pinned by Deals.NewDealValid and Deals.ManagerChoicesFit |
| Deals.NewDealHasNoProfit | deals/models.py:25-35 | a deal built from the defaults has `total_profit` 0 |
| Deals.NewDealValid | deals/models.py:15-31 | a default deal satisfies the column rules exactly when the stock number has at most 8 characters and each name at most 20 |
| Deals.ManagerChoicesFit | deals/models.py:15-31 | a manager choice is one of Victor, Kevin, Paul and fits the 20-character manager column |
| Report.Holds | deals/views.py:113-117 | one lookup (`deal_date__gte`, `deal_date__lte`, `manager__in`) on one deal; no contract of its own: used by Report.Filter, whose contract it parametrises |
| Report.Matches | deals/views.py:112-117 | a deal meets every bound the criteria give, an absent bound or an empty manager list restricting nothing; no contract of its own: pinned by Report.GetFilteredDeals |
| Report.Filter | deals/views.py:113-117 | one queryset filter keeps the deals its lookup holds for, in order, with their multiplicities, and drops all others |
| Report.GetFilteredDeals | deals/views.py:107-118 | the result is a subsequence of the stored deals; it holds each deal meeting every given bound as often as the store does and no other deal; with no bounds, or when every deal meets them, it is the whole store; managers nobody has give an empty result |
| Report.ColumnSum | deals/views.py:125-130 | `Sum(column)` over the deals; no contract of its own: pinned by Report.ColumnSumsAddUpToTotalProfit and Report.GetProfitSummary |
| Report.ColumnSumsAddUpToTotalProfit | deals/views.py:124-132 | the sum of the six column sums equals the sum over deals of `total_profit` |
| Report.Average | deals/views.py:133-134 | the guarded average times the count gives back the total when the count is positive, and is 0 when the count is 0 |
| Report.GetProfitSummary | deals/views.py:124-136 | total profit is the sum of the deals' `total_profit` (0 for no deals); the deal count is the number of deals; profit per car times the count is the total, and it is 0 with no deals |
| Report.CountSold | deals/views.py:142-150 | a product's sold count never exceeds the number of deals |
| Report.CountSoldCountsSoldDeals | deals/views.py:142-150 | a product's sold count equals the number of deals whose amount for it is strictly positive |
| Report.CountSoldZero | deals/views.py:142-150 | a product's count is 0 exactly when no deal has a positive amount for it |
| Report.CountProducts | deals/views.py:142-150 | the five-entry `aggregate` of sold counts; no contract of its own: pinned by Report.CountSoldCountsSoldDeals and Report.GetProductsSummary |
| Report.TotalSold | deals/views.py:154 | `sum(products_sold.values())`; no contract of its own: pinned by Report.CountsAddUpToProductsOnDeals |
| Report.CountsAddUpToProductsOnDeals | deals/views.py:152-155 | the sum of the five counts equals the sum over deals of the number of products sold on each |
| Report.AverageProductsWithin | deals/views.py:152-155 | with every count at most the deal count, the average number of products lies in [0, 5] |
| Report.GetProductsSummary | deals/views.py:138-156 | each of the five counts is the number of deals that sold that product; their sum is the sum of products per deal and at most five per deal; the average is that sum over the deal count (0 with no deals) and lies in [0, 5] |
| Report.ProfitExample | deals/views.py:124-136 | two deals of 150 and 200 total profit give total 350, count 2, 175 per car |
| Report.ProductsExample | deals/views.py:142-156 | the same two deals, one with a service contract, give counts (1, 0, 0, 0, 0) and 0.5 products per deal |
| Report.ManagerFilterExample | deals/views.py:116-117 | filtering those deals by manager Victor keeps only his deal, whose profit is 150 |
| CsvExport.Header | deals/views.py:167 | the `fields` list of stored field names; no contract of its own: pinned by CsvExport.HeaderColumns |
| CsvExport.FieldValue | deals/views.py:172 | `getattr(deal, field)` for one stored field; no contract of its own: pinned by CsvExport.ExportCsv and the round trip in CsvExport.DealRow |
| CsvExport.HeaderColumns | deals/views.py:167-169 | the header is `id`, then the declared fields `deal_date` through `manager` in order; names are distinct; `total_profit` is not a column |
| CsvExport.HeaderRow | deals/views.py:169 | the first row holds one text entry per header column, the column's name |
| CsvExport.DealRow | deals/views.py:172 | a deal's row has one entry per header column, and the deal can be read back from it unchanged |
| CsvExport.DealRowInjective | deals/views.py:172 | two different deals never give the same row |
| CsvExport.ExportCsv | deals/views.py:165-172 | the export has one row more than there are deals; the first is the header; every row has the header's length; entry i of row k+1 is deal k's value for field i; each data row reads back as its deal |
| Listing.InsertByDate | deals/views.py:41 | inserting into a list sorted latest first keeps it sorted and adds exactly that deal |
| Listing.OrderByDateDesc | deals/views.py:41 | ordering by date descending gives a sorted rearrangement of the same deals |
| Listing.SortedPrefixIsLatest | deals/views.py:41 | the first k deals of a sorted rearrangement are sorted, come from the store, and are dated no earlier than any deal left out |
| Listing.RecentDeals | deals/views.py:37-41 | the listing has min(5, number of deals) entries, sorted latest first; its deals come from the store; no deal left out is dated later than any deal listed |

## Left out

- The object-relational mapping and SQL aggregation (`Sum`, `Count(Case(When(...)))`, slicing, the database's NULL-to-0 coalescing): each is a function over a sequence. The model's sums over no deals are 0, which is what `or 0` gives.
- Floating-point behaviour of the money columns (rounding, summation order): money is exact `real`.
- HTTP and view plumbing: the response object, its `Content-Disposition` header, the `export_csv` dispatch in `form_valid` and the template context.
- Login-required access: framework behaviour.
- The create, update and delete views: generic framework views with no logic of their own.
- Byte-level CSV (quoting, escaping, encoding, how values become text): library behaviour; only rows of field values are modelled.
- URL routes and the two forms. Validating criteria dates and manager names is the form layer's job, so the filter takes criteria as given.
- The unused `lib2to3` import in deals/views.py.
- Setting `deal_date` from the clock at creation (`auto_now_add`): the date is an input.
- `Deal.__str__` (the stock number as display text): presentation only.
- The primary key `id` is an input. Assigning and keeping it unique is the store's job.
- Listing.RecentDeals: does not fix the order among deals on the same date, because the source's query does not fix it either.
