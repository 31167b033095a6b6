/** The single-customer mutations: how a request is routed by identifier
    kind, and which customers a phone-clearing batch gets to before its
    first failure. */
module Mutations {
  import opened Wrappers
  import opened Entities

  /** The two values of the SDK's identifier selector. */
  const EXTERNAL_ID: string := "externalId"
  const ID: string := "id"

  /** `key` names `c` under the identifier kind it carries. */
  predicate Identifies(key: Identifier, c: Customer)
  {
    match key
    case ExternalKey(e) => e == c.externalId
    case IdKey(i) => i == c.id
  }

  /** The path key of an edit or subscriptions request: the external id when the
      selector is exactly "externalId", the internal id for any other value. */
  function KeyFor(c: Customer, selector: string): (key: Identifier)
    ensures key.ExternalKey? <==> selector == EXTERNAL_ID
    ensures Identifies(key, c)
  {
    if selector == EXTERNAL_ID then ExternalKey(c.externalId) else IdKey(c.id)
  }

  /** The customer with its phone list emptied. */
  function ClearPhones(c: Customer): Customer
  {
    c.(phones := [])
  }

  /** The edit the batch sends for `c`: by internal id, with the cleared
      customer and its own site. */
  function ClearPhonesRequest(c: Customer): (q: EditRequest)
    ensures q.identifiedBy == ID && q.site == c.site
    ensures q.customer.phones == [] && q.customer.(phones := c.phones) == c
  {
    EditRequest(ID, ClearPhones(c), c.site)
  }

  /** The remote's answer to an edit request. */
  type EditOracle = (Identifier, EditRequest) -> Outcome<Fault>

  predicate ClearSucceeds(edit: EditOracle, c: Customer)
  {
    edit(IdKey(c.id), ClearPhonesRequest(c)).Pass?
  }

  /** How many customers of `cs` the batch sends an edit for: all of them
      when every edit succeeds, otherwise up to and including the first one
      that fails. */
  function Attempted(edit: EditOracle, cs: seq<Customer>): (n: nat)
    ensures n <= |cs|
  {
    if cs == [] then 0
    else if !ClearSucceeds(edit, cs[0]) then 1
    else 1 + Attempted(edit, cs[1..])
  }

  /** The batch attempts at least one customer of a non-empty batch, every attempt before the last succeeded, and it stops early only
      after a failure. */
  lemma {:induction false} AttemptedStopsAtFirstFailure(edit: EditOracle, cs: seq<Customer>)
    ensures cs != [] ==> Attempted(edit, cs) >= 1
    ensures forall j :: 0 <= j < Attempted(edit, cs) - 1 ==> ClearSucceeds(edit, cs[j])
    ensures Attempted(edit, cs) < |cs| ==> !ClearSucceeds(edit, cs[Attempted(edit, cs) - 1])
  {
    if cs != [] && ClearSucceeds(edit, cs[0]) {
      AttemptedStopsAtFirstFailure(edit, cs[1..]);
      assert forall j :: 1 <= j < |cs| ==> cs[j] == cs[1..][j - 1];
    }
  }

  /** If the edit of customer i is the first to fail, exactly customers
      0..i are attempted. */
  lemma {:induction false} FirstFailureEndsBatch(edit: EditOracle, cs: seq<Customer>, i: nat)
    requires i < |cs|
    requires forall j :: 0 <= j < i ==> ClearSucceeds(edit, cs[j])
    requires !ClearSucceeds(edit, cs[i])
    ensures Attempted(edit, cs) == i + 1
  {
    if i > 0 {
      assert ClearSucceeds(edit, cs[0]);
      FirstFailureEndsBatch(edit, cs[1..], i - 1);
    }
  }

  /** If every edit succeeds, every customer is attempted. */
  lemma {:induction false} AllSucceedAllAttempted(edit: EditOracle, cs: seq<Customer>)
    requires forall j :: 0 <= j < |cs| ==> ClearSucceeds(edit, cs[j])
    ensures Attempted(edit, cs) == |cs|
  {
    if cs != [] {
      AllSucceedAllAttempted(edit, cs[1..]);
    }
  }

  /** The references for a combine request: one per id, in input order. */
  method References(ids: seq<int>) returns (refs: seq<CustomerReference>)
    ensures |refs| == |ids|
    ensures forall i :: 0 <= i < |ids| ==> refs[i].id == ids[i]
  {
    refs := [];
    for i := 0 to |ids|
      invariant |refs| == i
      invariant forall k :: 0 <= k < i ==> refs[k].id == ids[k]
    {
      refs := refs + [CustomerReference(ids[i])];
    }
  }
}
