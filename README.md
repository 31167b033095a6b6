# ApiWrapper model

A Dafny model of `ApiWrapper`, the gateway between an application and a CRM's
HTTP API (customers and orders, grouped per storefront "site"). It covers:

- **Cache path** (`cache_path.dfy`): where each bulk fetch caches its result.
  The path is `cachedDataPath + "/" + sanitized apiUrl + "_customers.json"`
  or `"_orders.json"`. The API URL is sanitized by removing every `/`, then
  every `:`, then every `https`, as PHP's array form of `str_replace` does.
- **Pagination** (`pagination.dfy`): the `while (true)` walk over list pages
  1, 2, 3, … with limit 100. The walk stops after the first page whose number
  plus one exceeds the reported `totalPageCount`, or at the first failing
  page. `Requested` and `Listed` are specification functions. They give the
  pages asked for and the items collected (or the fault) for a given remote
  listing.
- **Grouping** (`grouping.dfy`): customers are stored at `[site ?? "_"][id]`,
  and a later customer with the same key overwrites an earlier one. Orders
  are appended at `[site ?? "_"][customer id]`. `GroupCustomers` and
  `GroupOrders` fold these single stores over a listing.
- **Mutations** (`mutations.dfy`): the routing of edit and subscription
  requests by the identifier selector. The prefix of a phone-clearing batch
  that is actually sent. The reference list of a combine request.
- **The gateway** (`api_wrapper.dfy`, class `Simla.ApiWrapper`): the two
  cached bulk fetches, `customerEdit`, `customerSubscribe`,
  `customersCombine` and `nullDublicatePhones` (here `NullDuplicatePhones`).
  Each is written imperatively and proved against the functions above.

The remote SDK client is the class `Remote.Client`. Its fixed oracle functions
give the answer to each request (a page, a pass or a fault), and its `log`
field records every request sent, in order. The contracts use the log to
say which requests are made, with which keys and pages, and which are not.
The cache directory is a `Remote.FileStore` (path to stored map), with one
store for customer maps and one for order maps.

With a reported total page count K ≤ 0 the code still requests page 1, so
exactly one request is made (`Pagination.RequestCountForConstantTotal`).

## Model

| member | source | states |
|---|---|---|
| CachePath.RemoveAll | src/Service/Simla/ApiWrapper.php:62 | the definition of one `str_replace` deletion; its contract says the result is no longer than the input and only drops characters (its multiset of characters is contained in the input's); `RemoveCharSpec`, `RemoveAllAbsent`, `RemoveAllLeading` and `RemoveCharKeepsPrefix` state what it deletes and keeps |
| CachePath.RemoveAllAbsent | src/Service/Simla/ApiWrapper.php:62 | a string in which the pattern occurs nowhere is left unchanged |
| CachePath.RemoveAllLeading | src/Service/Simla/ApiWrapper.php:62 | an occurrence of a non-empty pattern at the front is deleted and the scan resumes after it |
| CachePath.RemoveCharKeepsPrefix | src/Service/Simla/ApiWrapper.php:62 | when deleting a character, a leading stretch free of it is kept as is |
| CachePath.Sanitize | src/Service/Simla/ApiWrapper.php:62 | the definition of the host part (delete `/`, then `:`, then `https`); its contract says it is no longer than the URL and uses only the URL's characters; `SanitizeHasNoSeparators` and `SanitizeHttpsUrl` state its properties |
| CachePath.SanitizeHttpsUrl | src/Service/Simla/ApiWrapper.php:62 | an `https://` URL whose host holds no `/`, no `:` and no `https` sanitizes to exactly its host, so the `https` deletion really drops the scheme |
| CachePath.CacheFile | src/Service/Simla/ApiWrapper.php:62 | the definition of the cache file path for one kind (:62 customers, :195 orders); its contract gives its length and says it starts with the cache directory; `CacheFileInDirectory` and `CacheFilesDistinct` state its properties |
| CachePath.RemoveCharSpec | src/Service/Simla/ApiWrapper.php:62 | removing a one-character pattern leaves no occurrence of it and keeps every other character with its multiplicity |
| CachePath.SanitizeHasNoSeparators | src/Service/Simla/ApiWrapper.php:62 | the sanitized API URL contains no `/` and no `:`, and consists only of characters of the URL |
| CachePath.CacheFileInDirectory | src/Service/Simla/ApiWrapper.php:62 | the cache file is `cachedDataPath` followed by one `/` and a file name with no further `/`, and ends with `_customers.json` or `_orders.json` |
| CachePath.CacheFilesDistinct | src/Service/Simla/ApiWrapper.php:195 | the customer and order cache files of the same directory and URL are different paths |
| Pagination.Requested | src/Service/Simla/ApiWrapper.php:69-86 | the definition of the pages the `while (true)` walk requests from a given page: the page itself, then the next one while the response succeeded and reported a total beyond it; `RequestedShape`, `RequestedStops`, `RequestedPagesAreConsecutive`, `RequestCountBounded` and `RequestCountForConstantTotal` state its properties |
| Pagination.RequestCountBounded | src/Service/Simla/ApiWrapper.php:82-85 | when every reported total is at most a bound, the walk from a page makes at most (bound + 2 − page) requests, so it ends |
| Pagination.Listed | src/Service/Simla/ApiWrapper.php:69-96 | the definition of what the walk collects: the items of every page in page order, or the fault of the first failing page; `ListedMatchesRequested` states its properties |
| Pagination.RequestedShape | src/Service/Simla/ApiWrapper.php:69-86 | the walk makes at least one request, and its pages are consecutive from the first one |
| Pagination.RequestedStops | src/Service/Simla/ApiWrapper.php:82-85 | every requested page but the last succeeded and reported a total beyond it; the last did not |
| Pagination.RequestedPagesAreConsecutive | src/Service/Simla/ApiWrapper.php:69-86 | the pages requested are 1, 2, … consecutively, and the walk stops exactly at the first page that fails or reports no further page |
| Pagination.RequestCountForConstantTotal | src/Service/Simla/ApiWrapper.php:82-85 | with a constant reported total K, exactly K requests are made when K ≥ 1 and exactly one when K ≤ 0 |
| Pagination.ListedMatchesRequested | src/Service/Simla/ApiWrapper.php:72-96 | the walk succeeds iff every requested page succeeded; it then yields the items of those pages in page order, and otherwise the fault of the last page requested |
| Grouping.PutCustomer | src/Service/Simla/ApiWrapper.php:79 | one store puts the customer at [site or "_"][id], adds only that site key, and leaves every other site's map and every other id unchanged |
| Grouping.GroupCustomers | src/Service/Simla/ApiWrapper.php:78-80 | the definition of the customer map built from a listing, storing the customers one after the other; `GroupCustomersSites`, `GroupCustomersStoresEvery` and `GroupCustomersHoldsLast` state its properties |
| Grouping.GroupCustomersSites | src/Service/Simla/ApiWrapper.php:78-80 | the site keys of the customer map are exactly the sites (or "_") of the listed customers |
| Grouping.GroupCustomersStoresEvery | src/Service/Simla/ApiWrapper.php:78-80 | every listed customer's (site or "_", id) key is present in the grouped map |
| Grouping.GroupCustomersHoldsLast | src/Service/Simla/ApiWrapper.php:78-80 | every entry of the grouped map is keyed by a listed customer and holds the last customer listed with that key, so no other keys exist |
| Grouping.PutOrder | src/Service/Simla/ApiWrapper.php:212 | one store appends the order to the list at [site or "_"][customer id] (a new one-order list when absent), adds only that site key and customer id, and leaves every other site's map and every other customer's list unchanged |
| Grouping.GroupOrders | src/Service/Simla/ApiWrapper.php:211-213 | the definition of the order map built from a listing, appending the orders one after the other; `GroupOrdersSites`, `GroupOrdersSpec` and `GroupOrdersKeepsEveryOrder` state its properties |
| Grouping.GroupOrdersSites | src/Service/Simla/ApiWrapper.php:211-213 | the site keys of the order map are exactly the sites (or "_") of the listed orders |
| Grouping.GroupOrdersSpec | src/Service/Simla/ApiWrapper.php:211-213 | [s][cid] is present iff some listed order has that site (or "_") and customer id, and it is exactly those orders in listing order |
| Grouping.GroupOrdersKeepsEveryOrder | src/Service/Simla/ApiWrapper.php:211-213 | the grouped map holds as many orders in total as were listed |
| Mutations.KeyFor | src/Service/Simla/ApiWrapper.php:114-118 | the request key is the external id exactly when the selector is `externalId`, the internal id otherwise, and it always identifies the customer |
| Mutations.ClearPhonesRequest | src/Service/Simla/ApiWrapper.php:166-170 | the definition of the edit the phone-clearing batch sends: selector `id`, the customer's own site, and the customer with an empty phone list and every other field unchanged |
| Mutations.Attempted | src/Service/Simla/ApiWrapper.php:165-183 | the batch sends at most one edit per customer |
| Mutations.AttemptedStopsAtFirstFailure | src/Service/Simla/ApiWrapper.php:165-183 | a non-empty batch sends at least one edit; every edit before the last sent succeeded; if the batch stops early, the last edit sent failed |
| Mutations.FirstFailureEndsBatch | src/Service/Simla/ApiWrapper.php:172-182 | if customer i's edit is the first to fail, exactly customers 0..i are attempted |
| Mutations.AllSucceedAllAttempted | src/Service/Simla/ApiWrapper.php:165-183 | if every edit succeeds, every customer is attempted |
| Mutations.References | src/Service/Simla/ApiWrapper.php:149-153 | one customer reference per id, in input order |
| Simla.StoreCustomers | src/Service/Simla/ApiWrapper.php:78-80 | storing one page of customers into the map grouped from the earlier listing gives the map grouped from the listing extended by that page |
| Simla.StoreOrders | src/Service/Simla/ApiWrapper.php:211-213 | appending one page of orders into the map grouped from the earlier listing gives the map grouped from the listing extended by that page |
| Simla.ApiWrapper.FetchCustomersBySites | src/Service/Simla/ApiWrapper.php:67-96 | the requests sent are exactly the walk's pages with limit 100; the result is the first fault, or the customers of all pages grouped by site and id |
| Simla.ApiWrapper.GetCachedCustomersBySites | src/Service/Simla/ApiWrapper.php:60-102 | with caching allowed and the cache file present, the stored map is returned and no request is sent and no file written; otherwise the walk is run, and a failure returns an empty map with the cache untouched, while a success returns the grouped map and writes exactly that map to the cache file |
| Simla.ApiWrapper.FetchOrdersBySite | src/Service/Simla/ApiWrapper.php:200-229 | the requests sent are exactly the walk's pages with limit 100; the result is the first fault, or the orders of all pages grouped by site and customer id |
| Simla.ApiWrapper.GetCachedOrdersBySite | src/Service/Simla/ApiWrapper.php:193-235 | the cache policy of the customer fetch, for orders and the `_orders.json` file |
| Simla.ApiWrapper.CustomerEdit | src/Service/Simla/ApiWrapper.php:104-134 | exactly one edit is sent, keyed as `KeyFor` routes it, carrying the selector, the customer and the customer's own site |
| Simla.ApiWrapper.CustomerSubscribe | src/Service/Simla/ApiWrapper.php:237-268 | exactly one subscriptions update is sent, keyed as `KeyFor` routes it, carrying the selector, the customer's site and the subscriptions |
| Simla.ApiWrapper.CustomersCombine | src/Service/Simla/ApiWrapper.php:147-160 | exactly one combine request is sent, with the result customer's reference and one reference per id in input order; the remote's answer or fault is returned as is |
| Simla.ApiWrapper.NullDuplicatePhones | src/Service/Simla/ApiWrapper.php:162-185 | the edits sent are, in order, by internal id with emptied phones for the attempted prefix of the batch; exactly those customers have their phones cleared in place and the rest are untouched |

## Left out

- `check()` (src/Service/Simla/ApiWrapper.php:42-58) is not modelled. It is one SDK call and a debug dump, with no logic to state.
- Logging and log message formatting are not modelled. They are output sinks that no result depends on.
- The SDK's HTTP transport, authentication and serialization are not modelled. The client is a fixed oracle, so the same request always gets the same answer.
- All exception kinds are collapsed into one `Fault`, and so is the broad `\Exception` handler of the fetches. The handler calling `getStatusCode()` on an exception that lacks it is not modelled.
- Real file I/O and `json_encode`/`json_decode` are not modelled. A store keeps the map itself, so a cached result is the same value that was written. The PHP version hands back decoded `stdClass` objects instead of arrays.
- The cache directory is two typed stores, one per file kind, rather than one filesystem. The two cache paths are always distinct (`CachePath.CacheFilesDistinct`), so nothing is lost by this.
- PHP array-key coercion is not modelled: numeric-string site names becoming integer keys, and a null customer id. Map ordering is not modelled either, because Dafny maps are unordered.
- Customer and order records carry only the fields the code reads (id, externalId, site, phones, customer id). Other fields are forwarded verbatim, so they are not modelled.
- Simla.ApiWrapper.FetchCustomersBySites requires `client.Valid()`: every page count the remote reports is bounded, which guarantees that the `while (true)` loop ends. The PHP loop runs forever against a remote whose reported total keeps growing.
- Simla.ApiWrapper.FetchOrdersBySite requires `client.Valid()`, for the same reason.
- Simla.ApiWrapper.GetCachedCustomersBySites requires `client.Valid()`, because it runs the customer walk.
- Simla.ApiWrapper.GetCachedOrdersBySite requires `client.Valid()`, because it runs the order walk.
- Simla.ApiWrapper.NullDuplicatePhones takes an array of customer values updated in place, standing for the caller's objects whose phones the PHP loop clears. Aliasing of one object across several array slots is not modelled. The `ids` argument is only logged by the source, so the model ignores it.
- Concurrent access to the cache files is not modelled, because nothing in the code coordinates it.
