# Boxu mystery-box store: orders, settings and dashboard in Dafny

Boxu is a small storefront that sells one product, the "mystery box", to
customers in Tunisia. Its back office manages orders and a singleton settings
record holding the product and shipping prices (integers in millimes) and three
marketing identifiers. This project models the backend endpoints that read
and write those tables, and the admin dashboard's overview figures, as pure
functions over an abstract in-memory database. It proves the properties the
code promises.

- `Api` (api.dfy): `Option`, the `Result` of an endpoint, and the error
  categories `InvalidArgument`, `NotFound` and `Internal`. It also defines
  JavaScript truthiness for optional strings and numbers: `Truthy`, `v || d`
  and `v || undefined`.
- `Orders` (orders.dfy): the `Order` row and the `OrderStore`. The store holds
  the table as a map from id to row, the next value of the serial id column,
  and a clock that stands for `NOW()`. It also defines the table invariants:
  rows are keyed by their id, and every stored total equals its own product
  price plus shipping price.
- `Recency` (recency.dfy): `ORDER BY created_at DESC`, done as an insertion
  sort on sequences. Its result is proved newest first and a permutation of
  its input.
- `OrderCreate`, `OrderList`, `OrderUpdate` and `OrderDelete`: one module for
  each order endpoint.
- `SettingsTable`, `SettingsGet` and `SettingsUpdate`: the settings rows, the
  response mapping, and the two settings endpoints.
- `Products` (products.dfy): the mystery-box lookup and its fallback product.
- `Dashboard` (dashboard.dfy): the overview figures computed from `list({})`.

An endpoint never changes a table it does not receive. `list`,
`getSettings` and `getMysteryBox` return no table, so they are read-only by
construction. `create` does not receive the settings table, so an order's
total is a snapshot of the prices in the request.

Modelling choices:
- `NOW()` is the store's clock, and every insert advances it. A well-formed
  store (`Orders.WellFormed`) therefore has distinct creation times: create
  stamps the new row with the clock, which is later than every stored time;
  update never changes a timestamp; delete only removes rows. The order of
  `created_at` ties, which Postgres leaves open, never matters in a
  well-formed store. In other stores the model breaks ties by descending id.
- Where a query may return several rows and the code takes the first one,
  the model takes the first row in storage order. This covers `SELECT id FROM
  settings LIMIT 1` without `ORDER BY`, and the product lookup.
- A negative `page` or `limit` reaches Postgres as a negative `OFFSET` or
  `LIMIT`, which it rejects. The model returns `Err(Internal)` in that case.
- An update of an existing settings row that supplies no field produces an
  empty `SET` list, which is an SQL syntax error. The model returns
  `Err(Internal)` and leaves the table unchanged.
- The settings update rewrites every row whose id equals the first row's id
  (`WHERE id = $n`) and returns the first of them in storage order. With
  distinct ids, as the serial column guarantees, that is the first row alone.
- `getSettings` returns the row with the greatest id (`ORDER BY id DESC`).

## Model

| member | source | states |
|---|---|---|
| OrderCreate.CreateOrder | backend/orders/create.ts:37-53 | The stored order's total is the request's product price plus shipping price, and its status is "processing". The customer fields, product id and both prices are stored as sent, with no validation. The table gains exactly this row under its id, and every other row is kept. In a well-formed store the id is fresh and the new order is newer than every stored one. |
| OrderCreate.CreatePreservesInvariants | backend/orders/create.ts:38-48 | Creating an order keeps the table keyed by id with ids and timestamps in the past. It also keeps every stored total equal to that order's own prices. |
| OrderCreate.CheckoutExample | backend/orders/create.ts:38-48 | An order placed at 99000 + 8000 millimes is stored with total 107000 and status "processing". |
| Recency.InsertByRecency | backend/orders/list.ts:61 | Inserting into a newest-first sequence keeps it newest first and adds exactly the one order, as a multiset. |
| Recency.SortNewestFirst | backend/orders/list.ts:61 | The sorted orders are newest first and are a permutation of the input. |
| Orders.RowsComplete | backend/orders/list.ts:45-61 | Reading the table as a sequence lists every stored row. |
| Orders.RowsSound | backend/orders/list.ts:45-61 | In a table keyed by id, every row of that sequence is the row stored under its own id. |
| OrderList.Ranked | backend/orders/list.ts:45-61 | The matching orders come out newest first, and there are as many of them as rows pass the status filter. |
| OrderList.Window | backend/orders/list.ts:62 | LIMIT/OFFSET returns `min(limit, n - offset)` orders, or none when the offset is past the end. Entry `i` is entry `offset + i` of the ordered result. |
| OrderList.ListOrders | backend/orders/list.ts:37-76 | The call fails with Internal exactly when the defaulted page or limit is below 1. Page and limit default to 1 and 20 when absent or 0, and the response echoes the defaulted values. The total is the number of orders the filter selects, whatever the page and limit. A page holds at most `limit` orders and at most `total`. The orders are newest first and form the window at offset `(page - 1) * limit` of the ranked matches. |
| OrderList.ListedOrdersMatch | backend/orders/list.ts:45-61 | In a well-formed store every listed order is the stored row under its id, and it has the requested status when the status filter is non-empty. |
| OrderList.MatchIsRanked | backend/orders/list.ts:45-61 | Every stored order that the filter selects appears in the ranking, so none is dropped. |
| OrderList.EveryMatchIsListed | backend/orders/list.ts:38-62 | In a well-formed store, whose timestamps are distinct, paging is complete: the order ranked `i`-th appears on page `i / limit + 1` for any limit of at least 1. |
| OrderUpdate.UpdateOrder | backend/orders/update.ts:36-85 | The call fails with InvalidArgument exactly when no field is truthy, whatever the id. Otherwise it fails with NotFound exactly when the id is absent, and it succeeds in every other case. On success each truthy field replaces its stored value and each falsy field keeps it. The id, product, prices, total and creation time never change. Every other order and the counters are untouched, and the response equals the stored row. |
| OrderUpdate.UpdatePreservesInvariants | backend/orders/update.ts:68-76 | A successful update keeps the store well formed and every stored total equal to its own prices. |
| OrderUpdate.UpdateIdempotent | backend/orders/update.ts:68-84 | Applying the same successful update twice gives the same store and response as applying it once. |
| OrderUpdate.EmptyStringIsAbsent | backend/orders/update.ts:41-60 | Sending any field as "" gives the same outcome as leaving it out. |
| OrderUpdate.EmptyUpdateOfMissingOrder | backend/orders/update.ts:41-82 | Every update request with no truthy field, sent for an id that does not exist, reports InvalidArgument and not NotFound, because the field check comes first. |
| OrderUpdate.AnyStatusIsStored | backend/orders/update.ts:41-44 | A non-empty status outside the admin interface's status list is still stored. |
| OrderDelete.DeleteOrder | backend/orders/delete.ts:11-18 | After the delete no order has the id. Every other order is kept unchanged and no order is added. Deleting an id that is not there leaves the store unchanged and raises no error. |
| OrderDelete.DeleteIdempotent | backend/orders/delete.ts:14 | Deleting twice equals deleting once. |
| OrderDelete.DeletePreservesInvariants | backend/orders/delete.ts:14 | Deleting keeps the store well formed and its totals consistent. |
| SettingsTable.Present | backend/settings/get.ts:45-53 | The response carries the stored prices unchanged. A NULL or empty identifier is left out, and a non-empty one is returned as stored. |
| SettingsGet.NewestIndex | backend/settings/get.ts:29-33 | The selected row has an id at least as great as every row's id. |
| SettingsGet.GetSettings | backend/settings/get.ts:19-55 | An empty table yields shipping 8000, product 99000 and no identifiers. Otherwise the result is the presentation of a row with the greatest id. No returned identifier is empty. |
| SettingsGet.GetReadsGreatestId | backend/settings/get.ts:32-33 | When ids are distinct, the settings read are those of the row with the greatest id. |
| SettingsUpdate.UpdateSettings | backend/settings/update.ts:27-111 | With a row present and no field supplied, the call fails (empty SET) and the table is unchanged. With a row present, exactly the rows sharing the first row's id change. In each of them, each supplied field, including 0 and "", replaces the stored value and each absent field keeps it; every other row is kept. With no row, exactly one row is inserted. Its prices fall back to 8000 and 99000 when absent or 0, and its identifiers are NULL when absent or empty. The response presents the written row. |
| SettingsUpdate.OnlyFirstRowChanges | backend/settings/update.ts:31-66 | When ids are distinct, the update leaves every row after the first unchanged. |
| SettingsUpdate.UpdateSettingsPreservesIds | backend/settings/update.ts:61-98 | An update keeps the settings ids distinct and below the serial column's next value: an update never changes an id, and an insert takes the next serial value. |
| SettingsUpdate.StaysSingleton | backend/settings/update.ts:31-99 | An update of a table with at most one row leaves exactly one row. |
| SettingsUpdate.UpdateThenGet | backend/settings/update.ts:31-109 | On a table with at most one row, a following read returns exactly the update's response. |
| SettingsUpdate.UpdateAndGetDivergeOnTwoRows | backend/settings/update.ts:31-47 | With two rows the update writes the first row, while a read returns the row with the greater id. The written shipping price is therefore not read back. |
| SettingsUpdate.ZeroPriceUpdateVersusInsert | backend/settings/update.ts:40-92 | A shipping price of 0 is stored when a row exists, because the test is `!== undefined`. It becomes 8000 when it creates the first row, because the insert uses `||`. |
| SettingsUpdate.FirstSettingsWrite | backend/settings/update.ts:78-98 | An empty table reads as the defaults. The first update of the shipping price to 9000 stores one row with product price 99000. |
| Products.FirstLive | backend/products/get.ts:24-28 | The chosen row has slug "mystery-box" and is active, and no earlier row does. If none is chosen, no row qualifies. |
| Products.GetMysteryBox | backend/products/get.ts:21-46 | The returned product is always active. Without a qualifying row it is the fallback. Otherwise it is the product of a qualifying row. |
| Products.FallbackMatchesDefaultPrice | backend/products/get.ts:30-42 | The fallback has id 1, and its price equals the settings' default product price of 99000. |
| Dashboard.PendingAndDeliveredDisjoint | frontend/components/admin/DashboardOverview.tsx:19-20 | The pending count plus the delivered count never exceeds the number of orders. |
| Dashboard.Summarize | frontend/components/admin/DashboardOverview.tsx:17-84 | The order count is the number of fetched orders. Pending and delivered count the "processing" and "delivered" statuses, and together they never exceed the order count. Revenue is the sum of the totals. The recent panel holds the first `min(5, n)` orders. |
| Dashboard.DashboardOverview | frontend/components/admin/DashboardOverview.tsx:7-25 | The overview of `list({})` counts `min(20, stored orders)` orders, so never more than 20. Its recent panel is newest first with `min(5, stored orders)` entries. |
| Dashboard.RecentAreNewest | frontend/components/admin/DashboardOverview.tsx:84 | Any stored order missing from the recent panel is no newer than every order shown there. |
| Dashboard.CountCardIsFirstPage | frontend/components/admin/DashboardOverview.tsx:9-25 | With more than 20 stored orders, the count card shows 20 while the list response's total is the full count. |
| Dashboard.RevenueIsProductPlusShipping | frontend/components/admin/DashboardOverview.tsx:18 | In a store whose totals are consistent, the revenue card equals the product takings plus the shipping takings of the fetched orders. |

## Left out

- Authentication (backend/auth/admin.ts, backend/auth/customer.ts): password
  hashing and token signing are calls into bcrypt and jsonwebtoken, whose
  behaviour is not visible. They are not part of this model.
- SQL text: the `$n` parameter numbering and query strings are not modelled,
  only their effect on the tables.
- The snake_case column names that `RETURNING *` gives the created order are
  abstracted: the stored row is the response.
- `COUNT(*)`: Postgres returns it as a bigint, which the driver may deliver as
  a string. The model's total is the integer count.
- Numbers are unbounded integers. JavaScript's floating-point numbers,
  fractional or NaN page numbers, and millimes-to-dinar display conversions
  are not modelled.
- Real timestamps: `NOW()` is a strictly increasing counter, so ties in
  `ORDER BY created_at` do not occur in a well-formed store. Stores with
  ties are ranked by descending id among equal timestamps; Postgres fixes no
  such order.
- Concurrency: the non-atomic check-then-insert of the settings update and
  all races between requests are not modelled.
- The HTTP framework, the Postgres engine, the React components and the
  dashboard's loading state are not modelled. While the data loads the
  dashboard uses `[]`, just as it does for a failed list.
- The checkout form's non-empty-field guard (frontend/pages/HomePage.tsx) is
  not part of this model. `create` itself accepts any strings.
- OrderCreate.CreateOrder: freshness of the new id, and the new order being
  the newest, are stated only for well-formed stores. In other stores the
  serial id may collide with an existing key.
- OrderList.ListedOrdersMatch: stated for well-formed stores, where a row's
  key is its id. The model's table is keyed by id, so `WHERE id = ...` and the
  key lookup coincide only there.
- SettingsGet.GetSettings: when two rows share the greatest id, the model
  picks the first of them. Postgres leaves that choice open.
