/** The nested maps the bulk fetches build: customers by site then id (a
    later customer overwrites an earlier one with the same key), orders by
    site then owning customer id (appended in listing order). A missing
    site is grouped under "_". */
module Grouping {
  import opened Wrappers
  import opened Entities

  const MissingSite: string := "_"

  type CustomerGroups = map<string, map<int, Customer>>
  type OrderGroups = map<string, map<int, seq<Order>>>

  /** The group key of a site: the site itself, or "_" when it is absent. */
  function SiteKey(site: Option<string>): string
  {
    if site.Some? then site.value else MissingSite
  }

  /** Stores one customer at [site][id]. */
  function PutCustomer(groups: CustomerGroups, c: Customer): (r: CustomerGroups)
    ensures SiteKey(c.site) in r && c.id in r[SiteKey(c.site)] && r[SiteKey(c.site)][c.id] == c
    ensures r.Keys == groups.Keys + {SiteKey(c.site)}
    ensures forall s :: s in groups && s != SiteKey(c.site) ==> r[s] == groups[s]
    ensures SiteKey(c.site) in groups ==> r[SiteKey(c.site)] == groups[SiteKey(c.site)][c.id := c]
    ensures SiteKey(c.site) !in groups ==> r[SiteKey(c.site)] == map[c.id := c]
  {
    var s := SiteKey(c.site);
    var inner := if s in groups then groups[s] else map[];
    groups[s := inner[c.id := c]]
  }

  /** The customer map after storing `cs` one after the other. */
  function GroupCustomers(cs: seq<Customer>): CustomerGroups
  {
    if cs == [] then map[] else PutCustomer(GroupCustomers(cs[..|cs| - 1]), cs[|cs| - 1])
  }

  /** The site keys of the customer map are exactly those of the listing. */
  lemma {:induction false} GroupCustomersSites(cs: seq<Customer>)
    ensures GroupCustomers(cs).Keys == set c | c in cs :: SiteKey(c.site)
  {
    if cs != [] {
      var init, last := cs[..|cs| - 1], cs[|cs| - 1];
      assert cs == init + [last];
      GroupCustomersSites(init);
    }
  }

  lemma GroupCustomersSnoc(cs: seq<Customer>, c: Customer)
    ensures GroupCustomers(cs + [c]) == PutCustomer(GroupCustomers(cs), c)
  {
    assert (cs + [c])[..|cs|] == cs;
  }

  /** `cs[j]` is the last customer of `cs` stored under [s][id]. */
  ghost predicate IsLastWithKey(cs: seq<Customer>, j: int, s: string, id: int)
  {
    && 0 <= j < |cs|
    && SiteKey(cs[j].site) == s && cs[j].id == id
    && forall k :: j < k < |cs| ==> SiteKey(cs[k].site) != s || cs[k].id != id
  }

  /** Every listed customer is stored under its key. */
  lemma {:induction false} GroupCustomersStoresEvery(cs: seq<Customer>)
    ensures var r := GroupCustomers(cs);
      forall i :: 0 <= i < |cs| ==> SiteKey(cs[i].site) in r && cs[i].id in r[SiteKey(cs[i].site)]
  {
    if cs != [] {
      var init := cs[..|cs| - 1];
      GroupCustomersStoresEvery(init);
      var g := GroupCustomers(init);
      var r := GroupCustomers(cs);
      assert r == PutCustomer(g, cs[|cs| - 1]);
      forall i | 0 <= i < |cs| - 1 ensures SiteKey(cs[i].site) in r && cs[i].id in r[SiteKey(cs[i].site)] {
        assert cs[i] == init[i];
        assert SiteKey(init[i].site) in g && init[i].id in g[SiteKey(init[i].site)];
      }
    }
  }

  /** Every entry of `groups` holds the last customer of `cs` listed with
      its key. */
  ghost predicate HoldsLastListed(cs: seq<Customer>, groups: CustomerGroups)
  {
    forall s, id :: s in groups && id in groups[s] ==>
      exists j :: IsLastWithKey(cs, j, s, id) && groups[s][id] == cs[j]
  }

  /** Storing one more customer keeps every entry the last one listed. */
  lemma HoldsLastStep(init: seq<Customer>, last: Customer, g: CustomerGroups)
    requires HoldsLastListed(init, g)
    ensures HoldsLastListed(init + [last], PutCustomer(g, last))
  {
    var cs := init + [last];
    var r := PutCustomer(g, last);
    forall s, id | s in r && id in r[s] ensures exists j :: IsLastWithKey(cs, j, s, id) && r[s][id] == cs[j] {
      if s == SiteKey(last.site) && id == last.id {
        assert IsLastWithKey(cs, |cs| - 1, s, id);
      } else {
        assert s in g && id in g[s] && r[s][id] == g[s][id];
        var j :| IsLastWithKey(init, j, s, id) && g[s][id] == init[j];
        assert IsLastWithKey(cs, j, s, id);
      }
    }
  }

  /** Every stored entry comes from the listing and holds the last customer
      listed with its key. */
  lemma {:induction false} GroupCustomersHoldsLast(cs: seq<Customer>)
    ensures HoldsLastListed(cs, GroupCustomers(cs))
  {
    if cs != [] {
      var init, last := cs[..|cs| - 1], cs[|cs| - 1];
      GroupCustomersHoldsLast(init);
      HoldsLastStep(init, last, GroupCustomers(init));
      assert cs == init + [last];
    }
  }

  /** Appends one order to the list at [site][customer id]. */
  function PutOrder(groups: OrderGroups, o: Order): (r: OrderGroups)
    ensures r.Keys == groups.Keys + {SiteKey(o.site)}
    ensures o.customerId in r[SiteKey(o.site)]
    ensures forall s :: s in groups && s != SiteKey(o.site) ==> r[s] == groups[s]
    ensures var s := SiteKey(o.site);
      r[s][o.customerId]
        == (if s in groups && o.customerId in groups[s] then groups[s][o.customerId] else []) + [o]
    ensures var s := SiteKey(o.site);
      s in groups ==> r[s] == groups[s][o.customerId := r[s][o.customerId]]
  {
    var s := SiteKey(o.site);
    var inner := if s in groups then groups[s] else map[];
    var list := if o.customerId in inner then inner[o.customerId] else [];
    groups[s := inner[o.customerId := list + [o]]]
  }

  /** The order map after appending `os` one after the other. */
  function GroupOrders(os: seq<Order>): OrderGroups
  {
    if os == [] then map[] else PutOrder(GroupOrders(os[..|os| - 1]), os[|os| - 1])
  }

  /** The site keys of the order map are exactly those of the listing. */
  lemma {:induction false} GroupOrdersSites(os: seq<Order>)
    ensures GroupOrders(os).Keys == set o | o in os :: SiteKey(o.site)
  {
    if os != [] {
      var init, last := os[..|os| - 1], os[|os| - 1];
      assert os == init + [last];
      GroupOrdersSites(init);
    }
  }

  lemma GroupOrdersSnoc(os: seq<Order>, o: Order)
    ensures GroupOrders(os + [o]) == PutOrder(GroupOrders(os), o)
  {
    assert (os + [o])[..|os|] == os;
  }

  /** The orders of `os` placed under site key `s` and customer `cid`, in
      their listing order. */
  function OrdersWithKey(os: seq<Order>, s: string, cid: int): seq<Order>
  {
    if os == [] then []
    else (if SiteKey(os[0].site) == s && os[0].customerId == cid then [os[0]] else [])
         + OrdersWithKey(os[1..], s, cid)
  }

  lemma {:induction false} OrdersWithKeyAppend(os: seq<Order>, o: Order, s: string, cid: int)
    ensures OrdersWithKey(os + [o], s, cid)
         == OrdersWithKey(os, s, cid) + (if SiteKey(o.site) == s && o.customerId == cid then [o] else [])
  {
    if os != [] {
      assert (os + [o])[1..] == os[1..] + [o];
      OrdersWithKeyAppend(os[1..], o, s, cid);
    }
  }

  /** A key is present exactly when some listed order carries it, and it
      holds the subsequence of the listing with that key. */
  lemma {:induction false} GroupOrdersSpec(os: seq<Order>)
    ensures var r := GroupOrders(os);
      forall s, cid :: (s in r && cid in r[s]) <==> OrdersWithKey(os, s, cid) != []
    ensures var r := GroupOrders(os);
      forall s, cid :: s in r && cid in r[s] ==> r[s][cid] == OrdersWithKey(os, s, cid)
  {
    if os != [] {
      var init, last := os[..|os| - 1], os[|os| - 1];
      assert os == init + [last];
      GroupOrdersSpec(init);
      var g := GroupOrders(init);
      var r := GroupOrders(os);
      assert r == PutOrder(g, last);
      forall s, cid
        ensures (s in r && cid in r[s]) <==> OrdersWithKey(os, s, cid) != []
        ensures s in r && cid in r[s] ==> r[s][cid] == OrdersWithKey(os, s, cid)
      {
        OrdersWithKeyAppend(init, last, s, cid);
      }
    }
  }

  /** The sum of the values of a map. */
  ghost function SumValues<K>(m: map<K, nat>): nat
    decreases |m|
  {
    if m == map[] then 0
    else
      var k :| k in m;
      assert |(m - {k}).Keys| < |m.Keys| by {
        assert (m - {k}).Keys == m.Keys - {k};
      }
      m[k] + SumValues(m - {k})
  }

  lemma SumValuesRemove<K>(m: map<K, nat>, k: K)
    requires k in m
    ensures SumValues(m) == m[k] + SumValues(m - {k})
    decreases |m|
  {
    var k' :| k' in m && SumValues(m) == m[k'] + SumValues(m - {k'});
    if k' != k {
      assert (m - {k'}).Keys == m.Keys - {k'};
      assert (m - {k}).Keys == m.Keys - {k};
      SumValuesRemove(m - {k'}, k);
      SumValuesRemove(m - {k}, k');
      assert m - {k'} - {k} == m - {k} - {k'};
    }
  }

  lemma SumValuesUpdate<K>(m: map<K, nat>, k: K, v: nat)
    ensures SumValues(m[k := v]) == SumValues(m) + v - (if k in m then m[k] else 0)
  {
    SumValuesRemove(m[k := v], k);
    assert m[k := v] - {k} == m - {k};
    if k in m {
      SumValuesRemove(m, k);
    } else {
      assert m - {k} == m;
    }
  }

  ghost function ListSizes(inner: map<int, seq<Order>>): map<int, nat>
  {
    map c | c in inner :: |inner[c]|
  }

  ghost function SiteTotals(groups: OrderGroups): map<string, nat>
  {
    map s | s in groups :: SumValues(ListSizes(groups[s]))
  }

  /** The number of orders stored in the map, over all sites and customers. */
  ghost function StoredOrders(groups: OrderGroups): nat
  {
    SumValues(SiteTotals(groups))
  }

  /** Appending to one customer's list adds one to the site's total. */
  lemma AppendAddsOne(inner: map<int, seq<Order>>, cid: int, o: Order)
    ensures var list := if cid in inner then inner[cid] else [];
      SumValues(ListSizes(inner[cid := list + [o]])) == SumValues(ListSizes(inner)) + 1
  {
    var list := if cid in inner then inner[cid] else [];
    assert ListSizes(inner[cid := list + [o]]) == ListSizes(inner)[cid := |list| + 1];
    SumValuesUpdate(ListSizes(inner), cid, |list| + 1);
  }

  lemma PutOrderAddsOne(groups: OrderGroups, o: Order)
    ensures StoredOrders(PutOrder(groups, o)) == StoredOrders(groups) + 1
  {
    var s := SiteKey(o.site);
    var inner := if s in groups then groups[s] else map[];
    var list := if o.customerId in inner then inner[o.customerId] else [];
    var inner' := inner[o.customerId := list + [o]];
    AppendAddsOne(inner, o.customerId, o);
    var total' := SumValues(ListSizes(inner'));
    assert SiteTotals(groups[s := inner']) == SiteTotals(groups)[s := total'];
    SumValuesUpdate(SiteTotals(groups), s, total');
    if s !in groups {
      assert ListSizes(inner) == map[];
    }
  }

  /** Every listed order is stored exactly once. */
  lemma {:induction false} GroupOrdersKeepsEveryOrder(os: seq<Order>)
    ensures StoredOrders(GroupOrders(os)) == |os|
  {
    if os != [] {
      GroupOrdersKeepsEveryOrder(os[..|os| - 1]);
      PutOrderAddsOne(GroupOrders(os[..|os| - 1]), os[|os| - 1]);
    } else {
      assert SiteTotals(map[]) == map[];
    }
  }
}
