/** Stand-ins for the gateway's collaborators: the CRM SDK client and the
    local filesystem. The client answers each request from fixed oracle
    functions and records every request it is sent; the filesystem maps
    paths to stored content. */
module Remote {
  import opened Wrappers
  import opened Entities
  import opened Pagination
  import Mutations

  class Client {
    const customerPages: int -> Result<Page<Customer>, Fault>
    const orderPages: int -> Result<Page<Order>, Fault>
    const editOutcome: Mutations.EditOracle
    const subscriptionsOutcome: (Identifier, SubscriptionsRequest) -> Outcome<Fault>
    const combineOutcome: CombineRequest -> Result<Response, Fault>
    /** An upper bound on every total page count the server reports. */
    ghost const pageBound: nat
    /** Every request sent so far, oldest first. */
    var log: seq<Call>

    ghost predicate Valid()
    {
      Bounded(customerPages, pageBound) && Bounded(orderPages, pageBound)
    }

    constructor (
      customerPages: int -> Result<Page<Customer>, Fault>,
      orderPages: int -> Result<Page<Order>, Fault>,
      editOutcome: Mutations.EditOracle,
      subscriptionsOutcome: (Identifier, SubscriptionsRequest) -> Outcome<Fault>,
      combineOutcome: CombineRequest -> Result<Response, Fault>,
      ghost pageBound: nat)
      requires Bounded(customerPages, pageBound) && Bounded(orderPages, pageBound)
      ensures Valid() && log == []
      ensures this.customerPages == customerPages && this.orderPages == orderPages
      ensures this.editOutcome == editOutcome && this.subscriptionsOutcome == subscriptionsOutcome
      ensures this.combineOutcome == combineOutcome && this.pageBound == pageBound
    {
      this.customerPages := customerPages;
      this.orderPages := orderPages;
      this.editOutcome := editOutcome;
      this.subscriptionsOutcome := subscriptionsOutcome;
      this.combineOutcome := combineOutcome;
      this.pageBound := pageBound;
      log := [];
    }

    method ListCustomers(page: int, limit: int) returns (r: Result<Page<Customer>, Fault>)
      modifies this
      ensures log == old(log) + [ListCustomersCall(page, limit)]
      ensures r == customerPages(page)
    {
      log := log + [ListCustomersCall(page, limit)];
      r := customerPages(page);
    }

    method ListOrders(page: int, limit: int) returns (r: Result<Page<Order>, Fault>)
      modifies this
      ensures log == old(log) + [ListOrdersCall(page, limit)]
      ensures r == orderPages(page)
    {
      log := log + [ListOrdersCall(page, limit)];
      r := orderPages(page);
    }

    method Edit(key: Identifier, request: EditRequest) returns (r: Outcome<Fault>)
      modifies this
      ensures log == old(log) + [EditCall(key, request)]
      ensures r == editOutcome(key, request)
    {
      log := log + [EditCall(key, request)];
      r := editOutcome(key, request);
    }

    method Subscriptions(key: Identifier, request: SubscriptionsRequest) returns (r: Outcome<Fault>)
      modifies this
      ensures log == old(log) + [SubscriptionsCall(key, request)]
      ensures r == subscriptionsOutcome(key, request)
    {
      log := log + [SubscriptionsCall(key, request)];
      r := subscriptionsOutcome(key, request);
    }

    method Combine(request: CombineRequest) returns (r: Result<Response, Fault>)
      modifies this
      ensures log == old(log) + [CombineCall(request)]
      ensures r == combineOutcome(request)
    {
      log := log + [CombineCall(request)];
      r := combineOutcome(request);
    }
  }

  /** Files holding one kind of content, by path. */
  class FileStore<V> {
    var files: map<string, V>

    constructor (files: map<string, V>)
      ensures this.files == files
    {
      this.files := files;
    }

    method Exists(path: string) returns (b: bool)
      ensures b <==> path in files
    {
      b := path in files;
    }

    method Read(path: string) returns (content: V)
      requires path in files
      ensures content == files[path]
    {
      content := files[path];
    }

    method Write(path: string, content: V)
      modifies this
      ensures files == old(files)[path := content]
    {
      files := files[path := content];
    }
  }
}
