# Best-selling wines: a Dafny model

This project models the one piece of real logic in the winedrops service: the
best-selling wines report. The server answers `/best_selling_wines` with one
SQL statement. That statement joins `master_wine` to `wine_product` and
left-joins `customer_order`. It keeps the orders whose status is `paid` or
`dispatched` and, optionally, the wines whose full name contains a search
term. It groups by master wine, sums revenue and bottles, counts orders and
ranks the wines by one of three metrics. The rows come back in an
`{items, total, err}` envelope. `/valid_orders` uses the same status filter and
the same envelope. The page shows the list, highlights its top and bottom
tenth, and builds its request from the selected ranking and the search box.

The model is a reference semantics written as pure functions over sequences,
plus lemmas about them:

- `Outcomes`: `Option` (an absent request parameter, SQL NULL) and `Result`
  (a statement the driver runs or fails).
- `OrderFilters`: the ranking registry `ORDER_FILTERS`. Its module is not part
  of this model. Its keys are taken from the page's `ORDER_LABELS`: `REVENUE`,
  `QUANTITY` and `ORDERS` order by `revenue`, `sold_bottles` and
  `order_count`.
- `Query`: the three tables as datatypes in sequences; the LEFT JOIN, with
  `None` for the NULL order columns; the WHERE clause. It also proves that
  the WHERE clause turns the left join into an inner join over qualifying
  orders.
- `Report`: the choice of ranking, GROUP BY, ORDER BY ... DESC, the envelope
  and the two endpoints, with lemmas that describe each report row.
- `App`: the page's pure rules. These are the ranking buttons, the search
  fragment and request URL, `tenPercent`, the tier classes and the choice
  between the list and the "no results" message.
- `Scenarios`: the report worked out for a three-wine store.

The code interpolates the search term into the SQL text. The model reads the
LIKE pattern as a literal substring test. When a statement fails, the code
reads `rows.length` of an undefined `rows`, at line 53 for the report and at
line 86 for `/valid_orders` (see Findings). `Respond` models
the envelope the code evidently intends and that both endpoint members use.
`RespondAsWritten` models the line as written.

Amounts and quantities are integers (minor currency units). A vintage is
kept in the text form that `||` produces. `master_wine.id` is the table's key.
The lemmas that need this fact require `UniqueWineIds`.

## Model

| member | source | states |
|---|---|---|
| `OrderFilters.Lookup` | backend/src/index.ts:25 | a key finds the ranking registered under it, and only then; an unknown key finds none |
| `Report.ResolveMetric` | backend/src/index.ts:25 | the ranking selected is the one whose key is `orderBy`; a missing or unrecognised `orderBy` gives REVENUE |
| `Report.KeyResolvesToItself` | backend/src/index.ts:25 | each ranking's own key selects that ranking |
| `Report.Measure` | backend/src/index.ts:45 | defines the column each ranking orders by: REVENUE `revenue`, QUANTITY `sold_bottles`, ORDERS `order_count`; the registry module is not part of this model, so this mapping is read off the page's ORDER_LABELS |
| `Query.ValidOrders` | backend/src/index.ts:82 | an order is selected exactly when it is in the table and its status is `paid` or `dispatched` |
| `Query.Qualifies` | backend/src/index.ts:40 | defines a qualifying order: its status is `paid` or `dispatched` (the same test as line 82) |
| `Query.ValidOrdersCount` | backend/src/index.ts:82 | each qualifying order is selected as many times as the table holds it; no other order is selected |
| `Query.OrdersOf` | backend/src/index.ts:37-38 | the orders joined to a product are exactly those whose `wine_product_id` is its id |
| `Query.OrderInProductOrders` | backend/src/index.ts:35-38 | an order of any product of a wine is among that wine's orders |
| `Query.FullName` | backend/src/index.ts:29 | defines `full_name`: the name, one space, the vintage |
| `Query.SearchActive` | backend/src/index.ts:41 | defines when the search predicate is added: the term is present and non-empty |
| `Query.Contains` | backend/src/index.ts:41 | defines `LIKE '%term%'` as a substring test: the term is a prefix of some suffix of the text |
| `Query.MatchesSearch` | backend/src/index.ts:41 | defines the search condition: no active term, or the full name contains the term |
| `Query.Passes` | backend/src/index.ts:39-41 | defines the WHERE condition: the row has an order, its status qualifies, and the wine matches the search |
| `Query.LeftRows` | backend/src/index.ts:37-38 | the left join of a product yields one row per order of that product, all for that wine and product, carrying exactly its orders; it yields the single NULL row exactly when the product has no order |
| `Query.ProductRows` | backend/src/index.ts:35-38 | every joined row pairs the wine with one of its own products and, where present, that product's order; every such product/order pair is present, a product with no order appears with NULL, and only such a product does |
| `Query.JoinWines` | backend/src/index.ts:33-38 | every joined row pairs a wine of the table with one of its products and, where present, an order of that product; every such wine/product/order triple is present, a product with no order appears with NULL, and only such a product does |
| `Query.ContainsAt` | backend/src/index.ts:41 | the substring test holds exactly when the term occurs at some offset of the full name |
| `Query.ShortTextLacksPattern` | backend/src/index.ts:41 | a full name shorter than the term never contains it |
| `Query.Where` | backend/src/index.ts:39-41 | a row is kept exactly when it has an order, the order's status qualifies and the wine matches the search |
| `Query.WhereEmptySearch` | backend/src/index.ts:41 | an empty search term keeps the same rows as an absent one |
| `Query.InnerJoin` | backend/src/index.ts:35-41 | every row of the inner join has an order and a wine of the table that matches the search |
| `Query.InnerJoinNoMatch` | backend/src/index.ts:41 | when no wine matches the search, no row is joined |
| `Query.WhereLeftJoinIsInnerJoin` | backend/src/index.ts:37-40 | the status filter on the left-joined column gives the same rows as an inner join with the qualifying orders only |
| `Query.JoinedOrdersOfInnerRows` | backend/src/index.ts:30-38 | the joined rows of a wine carry the orders of all its products, product by product |
| `Query.JoinedOrders` | backend/src/index.ts:30-32 | the non-NULL order columns that SUM and COUNT see: never more than the rows, every present order included, and one per row when every row has an order |
| `Query.InnerJoinHasRow` | backend/src/index.ts:35-41 | a joined row of a wine that matches the search is a row of the filtered join |
| `Report.SortDesc` | backend/src/index.ts:44-45 | the ranked rows are non-increasing in the metric and are the same rows, each as many times |
| `Report.SortKeepsIdsDistinct` | backend/src/index.ts:42-45 | ranking keeps at most one row per wine id |
| `Report.RowsOf` | backend/src/index.ts:42-43 | a group holds exactly the rows whose wine has the group's id |
| `Report.GroupIds` | backend/src/index.ts:42-43 | the groups are the distinct wine ids occurring in the rows, each once |
| `Report.SumAmount` | backend/src/index.ts:30 | defines `SUM(co.total_amount)` over a group's orders |
| `Report.SumAmountConcat` | backend/src/index.ts:30 | the revenue sum over two runs of orders is the sum of their sums |
| `Report.SumQuantity` | backend/src/index.ts:31 | defines `SUM(co.quantity)` over a group's orders |
| `Report.SumQuantityConcat` | backend/src/index.ts:31 | the bottle sum over two runs of orders is the sum of their sums |
| `Report.Aggregate` | backend/src/index.ts:28-32 | the row carries the group's id and its first row's full name; `order_count` never exceeds the rows, and equals them when every row has an order |
| `Report.Groups` | backend/src/index.ts:28-32 | each group's row is the select list over exactly that group's rows |
| `Report.GroupBy` | backend/src/index.ts:28-32 | one row per wine id, each the aggregate of its own non-empty group |
| `Report.GroupByHasId` | backend/src/index.ts:42-43 | every wine id among the filtered rows gets a row |
| `Report.GroupOrders` | backend/src/index.ts:30-43 | with keyed wines, a matching wine's group holds exactly the qualifying orders of all its products |
| `Report.BestSellingWines` | backend/src/index.ts:26-46 | the rows are non-increasing in the selected metric, carry distinct ids and are exactly the groups of the filtered join |
| `Report.ReportRowIsAggregate` | backend/src/index.ts:28-43 | a row's full name is `name + " " + vintage` of its wine; revenue, bottles and order count are the sum of `total_amount`, the sum of `quantity` and the number of that wine's qualifying orders over all its products; the count is at least 1 |
| `Report.UnsoldWineIsAbsent` | backend/src/index.ts:35-43 | a wine id with no product, or none of whose products has a qualifying order, has no row |
| `Report.ReportIsComplete` | backend/src/index.ts:35-43 | every wine that matches the search and has a qualifying order gets a row |
| `Report.ReportRowsMatchSearch` | backend/src/index.ts:41 | with a non-empty term, every reported full name contains the term |
| `Report.UnmatchedSearchIsEmpty` | backend/src/index.ts:41 | a term that no wine's full name contains gives an empty report |
| `Report.EmptySearchIsNoSearch` | backend/src/index.ts:41 | an empty term gives the same report as no term |
| `Report.NonQualifyingOrderIgnored` | backend/src/index.ts:40 | inserting an order whose status is neither `paid` nor `dispatched` anywhere in the order table leaves the report unchanged |
| `Report.Respond` | backend/src/index.ts:53 | `total` equals the number of items; a failed statement gives no items and carries its error; a successful one gives its rows and no error |
| `Report.RespondAsWritten` | backend/src/index.ts:53 | as written, only a successful statement produces an envelope, holding its rows, their count and no error |
| `Report.AsWrittenLosesStorageError` | backend/src/index.ts:53 | as written, a failed statement produces no envelope, where the intended one is empty and carries the error |
| `Report.AsWrittenAgreesOnSuccess` | backend/src/index.ts:53 | on success the written envelope equals the intended one |
| `Report.BestSellingWinesEndpoint` | backend/src/index.ts:23-56 | `total` equals the item count; a storage error gives no items and the error; otherwise the items are the report, ranked by the selected metric |
| `Report.ValidOrdersEndpoint` | backend/src/index.ts:80-89 | on success the items are the table's orders with a qualifying status, in table order, with no error; every item is from the table and qualifies, and every qualifying order is included; `total` equals the item count; a storage error gives the intended envelope, with no items and the error (the written line 86 throws instead, see Findings) |
| `App.OrderButtons` | frontend/src/App.tsx:20-24 | there is one button per ranking (REVENUE, QUANTITY, ORDERS), with its label, and no ranking twice |
| `App.Label` | frontend/src/App.tsx:20-24 | defines each ranking's button text |
| `App.SearchQuery` | frontend/src/App.tsx:53 | the fragment is empty exactly when the term is undefined or empty; otherwise it is `&search=` followed by the term |
| `App.RequestUrl` | frontend/src/App.tsx:54 | the URL is the endpoint prefix, then an `orderBy` value the server resolves to the selected ranking, then the search fragment |
| `App.InitialOrderIsServerDefault` | frontend/src/App.tsx:42 | the page starts on REVENUE, the ranking the server falls back to |
| `App.TenPercent` | frontend/src/App.tsx:44-45 | the result is ceil(n/10): `n <= 10t < n + 10`; it is between 1 and n when n ≥ 1 |
| `App.TierOf` | frontend/src/App.tsx:95-97 | item `index` of n is top-higher exactly when `10 * index < n`, and top-lower exactly when `10 * (n - 1 - index) < n` |
| `App.Render` | frontend/src/App.tsx:89-111 | an empty list shows the "no results" message; otherwise one entry per wine, in order, with its id, name, revenue and tier classes |
| `App.CountPrefix` | frontend/src/App.tsx:95-97 | among the first k items, min(k, ceil(n/10)) are top-higher and max(0, k − (n − ceil(n/10))) are top-lower |
| `App.RenderTiers` | frontend/src/App.tsx:95-97 | item i is top-higher exactly when i < ceil(n/10), and top-lower exactly when it is among the last ceil(n/10); min(n, ceil(n/10)) items have each class; the first item is top-higher, the last top-lower, and a single item is both |
| `Scenarios.ShopSelected` | backend/src/index.ts:33-41 | for the sample store, the filtered join holds Alpha's two orders and Beta's one; Gamma's cancelled order is dropped |
| `Scenarios.ShopGroups` | backend/src/index.ts:28-43 | for the sample store, Alpha groups to revenue 50, 5 bottles, 2 orders and Beta to 100, 1, 1 |
| `Scenarios.ShopByRevenue` | backend/src/index.ts:23-46 | ranked by REVENUE, the sample store reports Beta then Alpha |
| `Scenarios.ShopByQuantity` | backend/src/index.ts:23-46 | ranked by QUANTITY, the sample store reports Alpha then Beta |
| `Scenarios.ShopNothingFound` | backend/src/index.ts:41-53 | a term no sample wine matches gives items `[]`, total 0 and no error |
| `Scenarios.ShopCancelledWineAbsent` | backend/src/index.ts:40-43 | Gamma, whose only order is cancelled, is absent under every ranking and search |

## Left out

- Fastify setup, CORS, routing, `/` and `process` handling: I/O glue.
- The sqlite3 connection, its open callback, and `console` logging: I/O. A
  statement's outcome is a parameter (`Result<Store, DbError>`).
- `/wines` and `/products`: raw table dumps with no logic beyond the envelope.
- The Promise wrapper around the driver callback: a concurrency wrapper. The
  model keeps what it resolves with.
- SQL text: the model works on the meaning of the statement, not its text.
  Interpolating the search term into the SQL lets quotes change the query.
  That is not modelled.
- `Query.MatchesSearch`: LIKE is read as a literal, case-sensitive substring
  test. SQLite's `%` and `_` wildcards inside the term and its ASCII case
  folding are not modelled.
- `Report.SortDesc`: SQLite leaves the order of equal metrics open. The model
  keeps them in group order. Apart from the worked scenarios, the
  properties claim only a non-increasing order of the same rows.
- `Report.Aggregate`: SQLite takes the bare `full_name` from an arbitrary row
  of the group. The model takes the group's first row. With keyed wines, all
  rows of a group agree.
- `Report.ReportRowIsAggregate`: requires unique `master_wine` ids, the
  table's key. With duplicate ids, SQLite would merge their rows into one
  group.
- `Report.ResolveMetric`: a JavaScript lookup also finds keys inherited from
  `Object.prototype` (`constructor`, `toString`, ...). Those would put a
  function's text into ORDER BY. The model resolves every unregistered key to
  revenue.
- `Report.ResolveMetric`: `orderBy` and `search` are single optional strings.
  Repeated query parameters, which Fastify parses as arrays, are not
  modelled.
- NULL `name`, `vintage`, `total_amount` or `quantity` columns: the datatypes
  always hold values.
- Integer overflow: SQLite's integer SUM fails with "integer overflow" past
  2^63 - 1. The model's sums are unbounded, so that error path is not modelled.
- Floating-point amounts and the GBP formatting with `Intl.NumberFormat`: the
  amounts are integers and no currency text is produced.
- `App.RequestUrl`: the term is put into the URL without encoding, so `&`,
  `#`, `+` or `%` in it change what the server receives. Query-string
  parsing is not part of this model.
- React machinery: `useState`, `useEffect`, `fetch`, the debounce timer, the
  clear-search button, DOM refs, JSX and CSS class joining.

## Findings

| source | as written | input that shows it | evidently intended | confidence | as-written member | corrected member |
|---|---|---|---|---|---|---|
| backend/src/index.ts:53 | `total: rows.length` reads the length of `rows`, which the sqlite driver leaves undefined when the statement fails, so the callback throws instead of resolving | any statement that fails (for example, the database is unreachable) | `{ items: [], total: 0, err }`, as the fallback of `rows` to an empty list suggests | medium, not executed | `Report.AsWrittenLosesStorageError` | `Report.Respond` |
| backend/src/index.ts:86 | `/valid_orders` has the same `total: rows.length` on a possibly undefined `rows` | any failing `customer_order` statement | `{ items: [], total: 0, err }`, as the fallback of `rows` to an empty list suggests | medium, not executed | `Report.AsWrittenLosesStorageError` | `Report.ValidOrdersEndpoint` |
