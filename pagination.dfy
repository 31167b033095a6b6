/** The pagination protocol of the bulk fetches: request page 1 with limit
    100, then page 2, 3, ..., and stop once the next page number exceeds the
    total page count reported by the last response, or on the first fault.
    A list endpoint is modelled as a function from a page number to that
    page or a fault. */
module Pagination {
  import opened Wrappers
  import opened Entities

  const FirstPage: int := 1
  const PageLimit: int := 100

  /** Every total page count the endpoint reports is at most `bound`; this is
      what makes the loop terminate. */
  ghost predicate Bounded<T>(list: int -> Result<Page<T>, Fault>, bound: nat)
  {
    forall p :: list(p).Success? ==> list(p).value.totalPageCount <= bound
  }

  /** After the response for `page`, the loop asks for `page + 1`. */
  predicate Continues<T>(response: Result<Page<T>, Fault>, page: int)
  {
    response.Success? && page + 1 <= response.value.totalPageCount
  }

  /** The page numbers requested, starting at `page`. */
  ghost function Requested<T>(list: int -> Result<Page<T>, Fault>, page: int, bound: nat): (r: seq<int>)
    requires Bounded(list, bound)
    requires page <= bound + 1
    decreases bound + 1 - page
  {
    if Continues(list(page), page) then [page] + Requested(list, page + 1, bound) else [page]
  }

  /** The items listed from `page` on, in pagination order, or the fault
      that ended the walk. */
  ghost function Listed<T>(list: int -> Result<Page<T>, Fault>, page: int, bound: nat): (r: Result<seq<T>, Fault>)
    requires Bounded(list, bound)
    requires page <= bound + 1
    decreases bound + 1 - page
  {
    match list(page)
    case Failure(e) => Failure(e)
    case Success(p) =>
      if Continues(list(page), page) then Prepend(p.items, Listed(list, page + 1, bound))
      else Success(p.items)
  }

  function Prepend<T>(xs: seq<T>, rest: Result<seq<T>, Fault>): Result<seq<T>, Fault>
  {
    match rest
    case Success(ys) => Success(xs + ys)
    case Failure(e) => Failure(e)
  }

  lemma PrependNothing<T>(rest: Result<seq<T>, Fault>)
    ensures Prepend([], rest) == rest
  {
    if rest.Success? {
      assert [] + rest.value == rest.value;
    }
  }

  lemma PrependPrepend<T>(xs: seq<T>, ys: seq<T>, rest: Result<seq<T>, Fault>)
    ensures Prepend(xs, Prepend(ys, rest)) == Prepend(xs + ys, rest)
  {
    if rest.Success? {
      assert xs + (ys + rest.value) == (xs + ys) + rest.value;
    }
  }

  /** One step of the walk: a failed page ends it with that page's fault; a
      page that does not ask for a successor ends it with its own items. */
  lemma WalkStep<T>(list: int -> Result<Page<T>, Fault>, page: int, bound: nat)
    requires Bounded(list, bound)
    requires page <= bound + 1
    ensures list(page).Failure? ==>
      Requested(list, page, bound) == [page] && Listed(list, page, bound) == Failure(list(page).error)
    ensures list(page).Success? && !Continues(list(page), page) ==>
      Requested(list, page, bound) == [page] && Listed(list, page, bound) == Success(list(page).value.items)
    ensures Continues(list(page), page) ==>
      && page + 1 <= bound + 1
      && Requested(list, page, bound) == [page] + Requested(list, page + 1, bound)
      && Listed(list, page, bound) == Prepend(list(page).value.items, Listed(list, page + 1, bound))
  {
  }

  /** The walk from the first page, split at `page`: the pages requested
      before it and the items they listed. */
  ghost predicate WalkedTo<T>(list: int -> Result<Page<T>, Fault>, bound: nat, page: int, pages: seq<int>, items: seq<T>)
    requires Bounded(list, bound)
  {
    && page <= bound + 1
    && Requested(list, FirstPage, bound) == pages + Requested(list, page, bound)
    && Listed(list, FirstPage, bound) == Prepend(items, Listed(list, page, bound))
  }

  lemma WalkStart<T>(list: int -> Result<Page<T>, Fault>, bound: nat)
    requires Bounded(list, bound)
    ensures WalkedTo(list, bound, FirstPage, [], [])
  {
    PrependNothing(Listed(list, FirstPage, bound));
  }

  /** A page that asks for a successor moves the split one page on. */
  lemma WalkAdvance<T>(list: int -> Result<Page<T>, Fault>, bound: nat, page: int, pages: seq<int>, items: seq<T>)
    requires Bounded(list, bound)
    requires WalkedTo(list, bound, page, pages, items)
    requires Continues(list(page), page)
    ensures WalkedTo(list, bound, page + 1, pages + [page], items + list(page).value.items)
  {
    WalkStep(list, page, bound);
    PrependPrepend(items, list(page).value.items, Listed(list, page + 1, bound));
  }

  /** A page that does not ask for a successor ends the walk successfully. */
  lemma WalkEnd<T>(list: int -> Result<Page<T>, Fault>, bound: nat, page: int, pages: seq<int>, items: seq<T>)
    requires Bounded(list, bound)
    requires WalkedTo(list, bound, page, pages, items)
    requires list(page).Success? && !Continues(list(page), page)
    ensures Requested(list, FirstPage, bound) == pages + [page]
    ensures Listed(list, FirstPage, bound) == Success(items + list(page).value.items)
  {
    WalkStep(list, page, bound);
  }

  /** A failed page ends the walk with its fault. */
  lemma WalkFail<T>(list: int -> Result<Page<T>, Fault>, bound: nat, page: int, pages: seq<int>, items: seq<T>)
    requires Bounded(list, bound)
    requires WalkedTo(list, bound, page, pages, items)
    requires list(page).Failure?
    ensures Requested(list, FirstPage, bound) == pages + [page]
    ensures Listed(list, FirstPage, bound) == Failure(list(page).error)
  {
    WalkStep(list, page, bound);
  }

  /** The items of the given pages, one after the other. */
  ghost function ItemsOf<T>(list: int -> Result<Page<T>, Fault>, pages: seq<int>): seq<T>
    requires forall i :: 0 <= i < |pages| ==> list(pages[i]).Success?
  {
    if pages == [] then [] else list(pages[0]).value.items + ItemsOf(list, pages[1..])
  }

  /** At least one request is made and the pages are consecutive from
      `page`. */
  lemma {:induction false} RequestedShape<T>(list: int -> Result<Page<T>, Fault>, page: int, bound: nat)
    requires Bounded(list, bound)
    requires page <= bound + 1
    ensures |Requested(list, page, bound)| >= 1
    ensures forall i :: 0 <= i < |Requested(list, page, bound)| ==> Requested(list, page, bound)[i] == page + i
    decreases bound + 1 - page
  {
    if Continues(list(page), page) {
      RequestedShape(list, page + 1, bound);
      var rest := Requested(list, page + 1, bound);
      assert Requested(list, page, bound) == [page] + rest;
    }
  }

  /** Every requested page but the last asked for a successor, and the last
      did not. */
  lemma {:induction false} RequestedStops<T>(list: int -> Result<Page<T>, Fault>, page: int, bound: nat)
    requires Bounded(list, bound)
    requires page <= bound + 1
    ensures var r := Requested(list, page, bound);
      && (forall i :: 0 <= i < |r| - 1 ==> Continues(list(r[i]), r[i]))
      && !Continues(list(r[|r| - 1]), r[|r| - 1])
    decreases bound + 1 - page
  {
    RequestedShape(list, page, bound);
    if Continues(list(page), page) {
      RequestedStops(list, page + 1, bound);
      var r := Requested(list, page, bound);
      var rest := Requested(list, page + 1, bound);
      assert r == [page] + rest;
      forall i | 1 <= i < |r| ensures r[i] == rest[i - 1] {}
    }
  }

  /** The walk from `page` makes at most bound + 2 - page requests: no
      page beyond the largest reported total plus one is asked for. */
  lemma {:induction false} RequestCountBounded<T>(list: int -> Result<Page<T>, Fault>, page: int, bound: nat)
    requires Bounded(list, bound)
    requires page <= bound + 1
    ensures |Requested(list, page, bound)| <= bound + 2 - page
    decreases bound + 1 - page
  {
    if Continues(list(page), page) {
      RequestCountBounded(list, page + 1, bound);
    }
  }

  /** At least one request is made; the pages are consecutive from `page`;
      every page but the last asked for a successor and the last did not. */
  lemma RequestedPagesAreConsecutive<T>(list: int -> Result<Page<T>, Fault>, page: int, bound: nat)
    requires Bounded(list, bound)
    requires page <= bound + 1
    ensures var r := Requested(list, page, bound);
      && |r| >= 1
      && (forall i :: 0 <= i < |r| ==> r[i] == page + i)
      && (forall i :: 0 <= i < |r| - 1 ==> Continues(list(r[i]), r[i]))
      && !Continues(list(r[|r| - 1]), r[|r| - 1])
  {
    RequestedShape(list, page, bound);
    RequestedStops(list, page, bound);
  }

  /** With a constant reported total K, the walk makes exactly K requests
      when K >= 1 and exactly one otherwise. */
  lemma RequestCountForConstantTotal<T>(list: int -> Result<Page<T>, Fault>, bound: nat, k: int)
    requires Bounded(list, bound)
    requires forall p :: list(p).Success? && list(p).value.totalPageCount == k
    ensures |Requested(list, FirstPage, bound)| == if k <= 1 then 1 else k
  {
    var r := Requested(list, FirstPage, bound);
    RequestedPagesAreConsecutive(list, FirstPage, bound);
    var n := |r|;
    assert !Continues(list(r[n - 1]), r[n - 1]);
    assert n + 1 > k;
    if n >= 2 {
      assert Continues(list(r[n - 2]), r[n - 2]);
      assert n <= k;
    }
  }

  /** The walk succeeds exactly when every requested page does; it then lists
      the items of the requested pages in order, and otherwise reports the
      fault of the last requested page. */
  lemma {:induction false} ListedMatchesRequested<T>(list: int -> Result<Page<T>, Fault>, page: int, bound: nat)
    requires Bounded(list, bound)
    requires page <= bound + 1
    ensures var r := Requested(list, page, bound);
      Listed(list, page, bound).Success? <==> forall i :: 0 <= i < |r| ==> list(r[i]).Success?
    ensures var r := Requested(list, page, bound);
      Listed(list, page, bound).Success? ==> Listed(list, page, bound).value == ItemsOf(list, r)
    ensures var r := Requested(list, page, bound);
      Listed(list, page, bound).Failure? ==> list(r[|r| - 1]) == Failure(Listed(list, page, bound).error)
    decreases bound + 1 - page
  {
    var r := Requested(list, page, bound);
    RequestedPagesAreConsecutive(list, page, bound);
    if Continues(list(page), page) {
      ListedMatchesRequested(list, page + 1, bound);
      var rest := Requested(list, page + 1, bound);
      assert r == [page] + rest;
      assert r[1..] == rest;
      assert forall i :: 1 <= i < |r| ==> r[i] == rest[i - 1];
    } else {
      assert r == [page];
    }
  }
}
