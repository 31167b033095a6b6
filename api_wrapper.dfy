/** The gateway over the CRM API: bulk customer and order fetches with a
    file cache, and the customer mutations. */
module Simla {
  import opened Wrappers
  import opened Entities
  import opened CachePath
  import opened Pagination
  import opened Grouping
  import opened Mutations
  import opened Remote

  /** The list requests for the given pages, each with the page limit. */
  function ListCustomersCalls(pages: seq<int>): seq<Call>
  {
    seq(|pages|, i requires 0 <= i < |pages| => ListCustomersCall(pages[i], PageLimit))
  }

  function ListOrdersCalls(pages: seq<int>): seq<Call>
  {
    seq(|pages|, i requires 0 <= i < |pages| => ListOrdersCall(pages[i], PageLimit))
  }

  lemma ListCallsSnoc(pages: seq<int>, page: int)
    ensures ListCustomersCalls(pages + [page]) == ListCustomersCalls(pages) + [ListCustomersCall(page, PageLimit)]
    ensures ListOrdersCalls(pages + [page]) == ListOrdersCalls(pages) + [ListOrdersCall(page, PageLimit)]
  {
  }

  /** The edits the phone-clearing batch sends for `cs`, in order. */
  function ClearPhonesCalls(cs: seq<Customer>): seq<Call>
  {
    seq(|cs|, i requires 0 <= i < |cs| => EditCall(IdKey(cs[i].id), ClearPhonesRequest(cs[i])))
  }

  /** `cs` with the phones of its first `n` customers cleared. */
  function ClearedUpTo(cs: seq<Customer>, n: nat): seq<Customer>
  {
    seq(|cs|, i requires 0 <= i < |cs| => if i < n then ClearPhones(cs[i]) else cs[i])
  }

  /** One step of the phone-clearing batch: customer i is cleared in place
      and its edit is the next request. */
  lemma ClearStep(cs: seq<Customer>, i: nat)
    requires i < |cs|
    ensures ClearedUpTo(cs, i)[i := ClearPhones(cs[i])] == ClearedUpTo(cs, i + 1)
    ensures ClearPhonesCalls(cs[..i + 1]) == ClearPhonesCalls(cs[..i]) + [EditCall(IdKey(cs[i].id), ClearPhonesRequest(cs[i]))]
  {
    assert cs[..i + 1] == cs[..i] + [cs[i]];
  }

  lemma CustomerStep(listedBefore: seq<Customer>, items: seq<Customer>, i: nat)
    requires i < |items|
    ensures GroupCustomers(listedBefore + items[..i + 1]) == PutCustomer(GroupCustomers(listedBefore + items[..i]), items[i])
  {
    assert listedBefore + items[..i + 1] == (listedBefore + items[..i]) + [items[i]];
    GroupCustomersSnoc(listedBefore + items[..i], items[i]);
  }

  lemma TakeAll<T>(s: seq<T>)
    ensures s[..|s|] == s
  {
  }

  /** Stores one page of customers, in order, into the map built from the
      customers listed before it. */
  method StoreCustomers(customers: CustomerGroups, ghost listedBefore: seq<Customer>, items: seq<Customer>)
    returns (r: CustomerGroups)
    requires customers == GroupCustomers(listedBefore)
    ensures r == GroupCustomers(listedBefore + items)
  {
    r := customers;
    assert listedBefore + items[..0] == listedBefore;
    for i := 0 to |items|
      invariant r == GroupCustomers(listedBefore + items[..i])
    {
      CustomerStep(listedBefore, items, i);
      r := PutCustomer(r, items[i]);
    }
    TakeAll(items);
  }

  lemma OrderStep(listedBefore: seq<Order>, items: seq<Order>, i: nat)
    requires i < |items|
    ensures GroupOrders(listedBefore + items[..i + 1]) == PutOrder(GroupOrders(listedBefore + items[..i]), items[i])
  {
    assert listedBefore + items[..i + 1] == (listedBefore + items[..i]) + [items[i]];
    GroupOrdersSnoc(listedBefore + items[..i], items[i]);
  }

  /** Appends one page of orders, in order, to the map built from the orders
      listed before it. */
  method StoreOrders(orders: OrderGroups, ghost listedBefore: seq<Order>, items: seq<Order>)
    returns (r: OrderGroups)
    requires orders == GroupOrders(listedBefore)
    ensures r == GroupOrders(listedBefore + items)
  {
    r := orders;
    assert listedBefore + items[..0] == listedBefore;
    for i := 0 to |items|
      invariant r == GroupOrders(listedBefore + items[..i])
    {
      OrderStep(listedBefore, items, i);
      r := PutOrder(r, items[i]);
    }
    TakeAll(items);
  }

  class ApiWrapper {
    const client: Client
    const cachedDataPath: string
    const apiUrl: string
    const customerFiles: FileStore<CustomerGroups>
    const orderFiles: FileStore<OrderGroups>

    constructor (
      client: Client,
      cachedDataPath: string,
      apiUrl: string,
      customerFiles: FileStore<CustomerGroups>,
      orderFiles: FileStore<OrderGroups>)
      ensures this.client == client && this.cachedDataPath == cachedDataPath && this.apiUrl == apiUrl
      ensures this.customerFiles == customerFiles && this.orderFiles == orderFiles
    {
      this.client := client;
      this.cachedDataPath := cachedDataPath;
      this.apiUrl := apiUrl;
      this.customerFiles := customerFiles;
      this.orderFiles := orderFiles;
    }

    /** The page walk of the customer fetch: pages 1, 2, ... with limit 100,
        each page's customers stored at [site][id]; the first failed page
        ends the walk with its fault. */
    method FetchCustomersBySites() returns (outcome: Result<CustomerGroups, Fault>)
      requires client.Valid()
      modifies client
      ensures client.log == old(client.log) + ListCustomersCalls(Requested(client.customerPages, FirstPage, client.pageBound))
      ensures var listed := Listed(client.customerPages, FirstPage, client.pageBound);
        && (listed.Failure? ==> outcome == Failure(listed.error))
        && (listed.Success? ==> outcome == Success(GroupCustomers(listed.value)))
    {
      var page := FirstPage;
      var customers: CustomerGroups := map[];
      ghost var pagesSoFar: seq<int> := [];
      ghost var listedSoFar: seq<Customer> := [];
      WalkStart(client.customerPages, client.pageBound);
      while true
        invariant WalkedTo(client.customerPages, client.pageBound, page, pagesSoFar, listedSoFar)
        invariant client.log == old(client.log) + ListCustomersCalls(pagesSoFar)
        invariant customers == GroupCustomers(listedSoFar)
        decreases client.pageBound + 1 - page
      {
        var response := client.ListCustomers(page, PageLimit);
        ListCallsSnoc(pagesSoFar, page);
        if response.Failure? {
          WalkFail(client.customerPages, client.pageBound, page, pagesSoFar, listedSoFar);
          return Failure(response.error);
        }
        var items := response.value.items;
        customers := StoreCustomers(customers, listedSoFar, items);
        if page + 1 > response.value.totalPageCount {
          WalkEnd(client.customerPages, client.pageBound, page, pagesSoFar, listedSoFar);
        } else {
          WalkAdvance(client.customerPages, client.pageBound, page, pagesSoFar, listedSoFar);
        }
        pagesSoFar := pagesSoFar + [page];
        listedSoFar := listedSoFar + items;
        page := page + 1;
        if page > response.value.totalPageCount {
          break;
        }
      }
      outcome := Success(customers);
    }

    /** All customers grouped by site then id: the cached map when caching is
        allowed and the cache file exists; otherwise a fresh walk over every
        page, written to the cache only when every page succeeded, and an
        empty map with the cache untouched when a page failed. */
    method GetCachedCustomersBySites(noCache: bool := false) returns (result: CustomerGroups)
      requires client.Valid()
      modifies client, customerFiles
      ensures var path := CacheFile(cachedDataPath, apiUrl, CustomersCache);
        !noCache && path in old(customerFiles.files) ==>
          && result == old(customerFiles.files)[path]
          && client.log == old(client.log)
          && customerFiles.files == old(customerFiles.files)
      ensures var path := CacheFile(cachedDataPath, apiUrl, CustomersCache);
        var listed := Listed(client.customerPages, FirstPage, client.pageBound);
        (noCache || path !in old(customerFiles.files)) ==>
          && client.log == old(client.log) + ListCustomersCalls(Requested(client.customerPages, FirstPage, client.pageBound))
          && (listed.Failure? ==> result == map[] && customerFiles.files == old(customerFiles.files))
          && (listed.Success? ==>
                result == GroupCustomers(listed.value)
                && customerFiles.files == old(customerFiles.files)[path := result])
    {
      var customersFile := CacheFile(cachedDataPath, apiUrl, CustomersCache);
      var cached := customerFiles.Exists(customersFile);
      if !noCache && cached {
        result := customerFiles.Read(customersFile);
        return;
      }
      var outcome := FetchCustomersBySites();
      if outcome.Failure? {
        return map[];
      }
      customerFiles.Write(customersFile, outcome.value);
      result := outcome.value;
    }

    /** The page walk of the order fetch: pages 1, 2, ... with limit 100,
        each order appended at [site][customer id]; the first failed page
        ends the walk with its fault. */
    method FetchOrdersBySite() returns (outcome: Result<OrderGroups, Fault>)
      requires client.Valid()
      modifies client
      ensures client.log == old(client.log) + ListOrdersCalls(Requested(client.orderPages, FirstPage, client.pageBound))
      ensures var listed := Listed(client.orderPages, FirstPage, client.pageBound);
        && (listed.Failure? ==> outcome == Failure(listed.error))
        && (listed.Success? ==> outcome == Success(GroupOrders(listed.value)))
    {
      var page := FirstPage;
      var orders: OrderGroups := map[];
      ghost var pagesSoFar: seq<int> := [];
      ghost var listedSoFar: seq<Order> := [];
      WalkStart(client.orderPages, client.pageBound);
      while true
        invariant WalkedTo(client.orderPages, client.pageBound, page, pagesSoFar, listedSoFar)
        invariant client.log == old(client.log) + ListOrdersCalls(pagesSoFar)
        invariant orders == GroupOrders(listedSoFar)
        decreases client.pageBound + 1 - page
      {
        var response := client.ListOrders(page, PageLimit);
        ListCallsSnoc(pagesSoFar, page);
        if response.Failure? {
          WalkFail(client.orderPages, client.pageBound, page, pagesSoFar, listedSoFar);
          return Failure(response.error);
        }
        var items := response.value.items;
        orders := StoreOrders(orders, listedSoFar, items);
        if page + 1 > response.value.totalPageCount {
          WalkEnd(client.orderPages, client.pageBound, page, pagesSoFar, listedSoFar);
        } else {
          WalkAdvance(client.orderPages, client.pageBound, page, pagesSoFar, listedSoFar);
        }
        pagesSoFar := pagesSoFar + [page];
        listedSoFar := listedSoFar + items;
        page := page + 1;
        if page > response.value.totalPageCount {
          break;
        }
      }
      outcome := Success(orders);
    }

    /** All orders grouped by site then owning customer id, each list in
        listing order; same cache policy as the customer fetch. */
    method GetCachedOrdersBySite(noCache: bool := false) returns (result: OrderGroups)
      requires client.Valid()
      modifies client, orderFiles
      ensures var path := CacheFile(cachedDataPath, apiUrl, OrdersCache);
        !noCache && path in old(orderFiles.files) ==>
          && result == old(orderFiles.files)[path]
          && client.log == old(client.log)
          && orderFiles.files == old(orderFiles.files)
      ensures var path := CacheFile(cachedDataPath, apiUrl, OrdersCache);
        var listed := Listed(client.orderPages, FirstPage, client.pageBound);
        (noCache || path !in old(orderFiles.files)) ==>
          && client.log == old(client.log) + ListOrdersCalls(Requested(client.orderPages, FirstPage, client.pageBound))
          && (listed.Failure? ==> result == map[] && orderFiles.files == old(orderFiles.files))
          && (listed.Success? ==>
                result == GroupOrders(listed.value)
                && orderFiles.files == old(orderFiles.files)[path := result])
    {
      var ordersFile := CacheFile(cachedDataPath, apiUrl, OrdersCache);
      var cached := orderFiles.Exists(ordersFile);
      if !noCache && cached {
        result := orderFiles.Read(ordersFile);
        return;
      }
      var outcome := FetchOrdersBySite();
      if outcome.Failure? {
        return map[];
      }
      orderFiles.Write(ordersFile, outcome.value);
      result := outcome.value;
    }

    /** Sends one edit of `customer` for its own site, keyed by the identifier
        kind `selector` chooses. Failures are swallowed. */
    method CustomerEdit(customer: Customer, selector: string := EXTERNAL_ID)
      modifies client
      ensures client.log == old(client.log) + [EditCall(KeyFor(customer, selector), EditRequest(selector, customer, customer.site))]
    {
      var request := EditRequest(selector, customer, customer.site);
      var outcome;
      if selector == EXTERNAL_ID {
        outcome := client.Edit(ExternalKey(customer.externalId), request);
      } else {
        outcome := client.Edit(IdKey(customer.id), request);
      }
    }

    /** Sends one subscriptions update for `customer` for its own site, keyed
        as in CustomerEdit. Failures are swallowed. */
    method CustomerSubscribe(customer: Customer, subscriptions: seq<Subscription>, selector: string := EXTERNAL_ID)
      modifies client
      ensures client.log == old(client.log)
        + [SubscriptionsCall(KeyFor(customer, selector), SubscriptionsRequest(selector, customer.site, subscriptions))]
    {
      var request := SubscriptionsRequest(selector, customer.site, subscriptions);
      var outcome;
      if selector == EXTERNAL_ID {
        outcome := client.Subscriptions(ExternalKey(customer.externalId), request);
      } else {
        outcome := client.Subscriptions(IdKey(customer.id), request);
      }
    }

    /** Sends one combine request merging `customerIds` into
        `resultCustomerId`, and hands back the remote's answer or fault. */
    method CustomersCombine(resultCustomerId: int, customerIds: seq<int>) returns (r: Result<Response, Fault>)
      modifies client
      ensures |client.log| == |old(client.log)| + 1
      ensures client.log[..|old(client.log)|] == old(client.log)
      ensures var call := client.log[|client.log| - 1];
        && call.CombineCall?
        && call.combineRequest.resultCustomer == CustomerReference(resultCustomerId)
        && |call.combineRequest.customers| == |customerIds|
        && (forall i :: 0 <= i < |customerIds| ==> call.combineRequest.customers[i].id == customerIds[i])
        && r == client.combineOutcome(call.combineRequest)
    {
      var resultCustomer := CustomerReference(resultCustomerId);
      var customers := References(customerIds);
      var request := CombineRequest(resultCustomer, customers);
      r := client.Combine(request);
    }

    /** Clears the phones of each customer in turn, in place, and edits it by
        id; the first failed edit ends the batch. `ids` is only logged. */
    method NullDuplicatePhones(customers: array<Customer>, ids: seq<int>)
      modifies client, customers
      ensures var n := Attempted(client.editOutcome, old(customers[..]));
        && client.log == old(client.log) + ClearPhonesCalls(old(customers[..])[..n])
        && customers[..] == ClearedUpTo(old(customers[..]), n)
    {
      ghost var before := customers[..];
      var i := 0;
      while i < customers.Length
        invariant 0 <= i <= customers.Length
        invariant Attempted(client.editOutcome, before) == i + Attempted(client.editOutcome, before[i..])
        invariant client.log == old(client.log) + ClearPhonesCalls(before[..i])
        invariant customers[..] == ClearedUpTo(before, i)
      {
        var customer := customers[i];
        customer := customer.(phones := []);
        customers[i] := customer;
        var outcome := client.Edit(IdKey(customer.id), EditRequest(ID, customer, customer.site));
        ClearStep(before, i);
        assert before[i..][1..] == before[i + 1..];
        if outcome.Fail? {
          return;
        }
        i := i + 1;
      }
      assert before[..i] == before;
    }
  }
}
