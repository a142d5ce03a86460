/** `HCBClient.getOrgTransactions` (src/clients/hcb.js): fetch a first page
    of 1000, read the total count from it, then fetch every remaining
    offset and concatenate the pages in offset order. The network is the
    function `fetch`, from the requested offset to the response. */
module HcbPager {
  import opened Wrappers
  import opened HcbTransactions

  /** The offsets `start, start + 1000, ...` strictly below `total`. */
  function OffsetsFrom(start: nat, total: int): seq<nat>
    decreases total - start
  {
    if start >= total then [] else [start] + OffsetsFrom(start + BatchSize, total)
  }

  /** The offsets of the batches after the first one. */
  function RemainingOffsets(total: int): seq<nat>
  {
    OffsetsFrom(BatchSize, total)
  }

  lemma {:induction false} OffsetsFromShape(start: nat, total: int)
    ensures |OffsetsFrom(start, total)| ==
      if start >= total then 0 else (total - 1 - start) / BatchSize + 1
    ensures forall k :: 0 <= k < |OffsetsFrom(start, total)| ==>
      OffsetsFrom(start, total)[k] == start + BatchSize * k < total
    decreases total - start
  {
    if start < total {
      OffsetsFromShape(start + BatchSize, total);
      var rest := OffsetsFrom(start + BatchSize, total);
      forall k | 1 <= k < |OffsetsFrom(start, total)|
        ensures OffsetsFrom(start, total)[k] == start + BatchSize * k
      {
        assert OffsetsFrom(start, total)[k] == rest[k - 1];
      }
    }
  }

  /** The remaining offsets are exactly 1000, 2000, ... below the total:
      ceil(total / 1000) - 1 of them, and the next one would reach the
      total. */
  lemma RemainingOffsetsShape(total: int)
    ensures |RemainingOffsets(total)| == if total <= BatchSize then 0 else (total - 1) / BatchSize
    ensures forall k :: 0 <= k < |RemainingOffsets(total)| ==>
      RemainingOffsets(total)[k] == BatchSize * (k + 1) && RemainingOffsets(total)[k] < total
    ensures forall j, k :: 0 <= j < k < |RemainingOffsets(total)| ==>
      RemainingOffsets(total)[j] < RemainingOffsets(total)[k]
    ensures BatchSize * (|RemainingOffsets(total)| + 1) >= total
  {
    OffsetsFromShape(BatchSize, total);
  }

  /** One page request: its transactions, or the HTTP error it aborts with. */
  function PageResult(fetch: nat -> Response, offset: nat): Result<seq<Transaction>, FetchError>
  {
    var response := fetch(offset);
    if IsOk(response.status) then Success(PageItems(response.body))
    else Failure(HttpError(response.status))
  }

  /** The pages at `offsets`, in that order, or the error of the first
      failing one. */
  function FetchPages(fetch: nat -> Response, offsets: seq<nat>): Result<seq<seq<Transaction>>, FetchError>
    decreases |offsets|
  {
    if offsets == [] then Success([])
    else
      match FetchPages(fetch, offsets[..|offsets| - 1])
      case Failure(e) => Failure(e)
      case Success(pages) =>
        match PageResult(fetch, offsets[|offsets| - 1])
        case Failure(e) => Failure(e)
        case Success(page) => Success(pages + [page])
  }

  /** The fetch of several pages succeeds exactly when every page does, and
      then yields each page's transactions in offset order. */
  lemma {:induction false} FetchPagesAllOrNothing(fetch: nat -> Response, offsets: seq<nat>)
    ensures FetchPages(fetch, offsets).Success? <==>
      forall k :: 0 <= k < |offsets| ==> IsOk(fetch(offsets[k]).status)
    ensures FetchPages(fetch, offsets).Success? ==>
      var pages := FetchPages(fetch, offsets).value;
      |pages| == |offsets| &&
      forall k :: 0 <= k < |offsets| ==> pages[k] == PageItems(fetch(offsets[k]).body)
    decreases |offsets|
  {
    if offsets != [] {
      var init := offsets[..|offsets| - 1];
      FetchPagesAllOrNothing(fetch, init);
      assert forall k :: 0 <= k < |init| ==> init[k] == offsets[k];
    }
  }

  /** `[first, ...rest].flat()`. */
  function Flatten<T>(pages: seq<seq<T>>): seq<T>
    decreases |pages|
  {
    if pages == [] then [] else Flatten(pages[..|pages| - 1]) + pages[|pages| - 1]
  }

  function SumLengths<T>(pages: seq<seq<T>>): nat
    decreases |pages|
  {
    if pages == [] then 0 else SumLengths(pages[..|pages| - 1]) + |pages[|pages| - 1]|
  }

  lemma {:induction false} FlattenAppend<T>(a: seq<seq<T>>, b: seq<seq<T>>)
    ensures Flatten(a + b) == Flatten(a) + Flatten(b)
    decreases |b|
  {
    if b != [] {
      var b' := b[..|b| - 1];
      assert (a + b)[..|a + b| - 1] == a + b';
      assert (a + b)[|a + b| - 1] == b[|b| - 1];
      FlattenAppend(a, b');
      calc {
        Flatten(a + b);
        Flatten(a + b') + b[|b| - 1];
        Flatten(a) + Flatten(b') + b[|b| - 1];
        Flatten(a) + Flatten(b);
      }
    } else {
      assert a + b == a;
    }
  }

  /** The concatenation holds every page once, in order: page `k` sits
      right after pages `0..k`, and the length is the sum of the page
      lengths. */
  lemma {:induction false} FlattenLayout<T>(pages: seq<seq<T>>, k: nat)
    requires k < |pages|
    ensures |Flatten(pages)| == SumLengths(pages)
    ensures var start := |Flatten(pages[..k])|;
      start + |pages[k]| <= |Flatten(pages)| &&
      Flatten(pages)[start..start + |pages[k]|] == pages[k]
  {
    FlattenLength(pages);
    assert pages == pages[..k] + [pages[k]] + pages[k + 1..];
    FlattenAppend(pages[..k] + [pages[k]], pages[k + 1..]);
    FlattenAppend(pages[..k], [pages[k]]);
    assert Flatten([pages[k]]) == pages[k] by {
      assert [pages[k]][..0] == [];
    }
  }

  lemma {:induction false} FlattenLength<T>(pages: seq<seq<T>>)
    ensures |Flatten(pages)| == SumLengths(pages)
    decreases |pages|
  {
    if pages != [] {
      FlattenLength(pages[..|pages| - 1]);
    }
  }

  /** What `getOrgTransactions` returns for a given network. */
  function OrgTransactions(fetch: nat -> Response): Result<seq<Transaction>, FetchError>
  {
    var first := fetch(0);
    if !IsOk(first.status) then Failure(HttpError(first.status))
    else
      var total := TotalCount(first.body);
      if total <= BatchSize then Success(PageItems(first.body))
      else
        match FetchPages(fetch, RemainingOffsets(total))
        case Failure(e) => Failure(e)
        case Success(pages) => Success(Flatten([PageItems(first.body)] + pages))
  }

  /** The offsets `getOrgTransactions` requests, in order: 0, then the
      remaining offsets only when the first page succeeded and announced
      more than one batch. */
  function RequestedOffsets(fetch: nat -> Response): seq<nat>
  {
    var first := fetch(0);
    if !IsOk(first.status) || TotalCount(first.body) <= BatchSize then [0]
    else [0] + RemainingOffsets(TotalCount(first.body))
  }

  method GetOrgTransactions(fetch: nat -> Response)
    returns (result: Result<seq<Transaction>, FetchError>, requested: seq<nat>)
    ensures result == OrgTransactions(fetch)
    ensures requested == RequestedOffsets(fetch)
  {
    requested := [0];
    var firstResponse := fetch(0);
    if !IsOk(firstResponse.status) {
      return Failure(HttpError(firstResponse.status)), requested;
    }
    var firstTransactions := PageItems(firstResponse.body);
    var totalCount := TotalCount(firstResponse.body);
    if totalCount <= BatchSize {
      return Success(firstTransactions), requested;
    }
    var remainingBatches := BatchOffsets(totalCount);
    var pages, fetched := FetchBatches(fetch, remainingBatches);
    requested := requested + fetched;
    match pages
    case Failure(e) => result := Failure(e);
    case Success(remainingResults) => result := Success(Flatten([firstTransactions] + remainingResults));
  }

  /** The loop collecting `remainingBatches`. */
  method BatchOffsets(totalCount: int) returns (remainingBatches: seq<nat>)
    ensures remainingBatches == RemainingOffsets(totalCount)
  {
    remainingBatches := [];
    var offset: nat := BatchSize;
    while offset < totalCount
      invariant remainingBatches + OffsetsFrom(offset, totalCount) == RemainingOffsets(totalCount)
      decreases totalCount - offset
    {
      remainingBatches := remainingBatches + [offset];
      offset := offset + BatchSize;
    }
  }

  /** The requests for the remaining batches: every offset is requested,
      and the first failure in offset order is the one reported. */
  method FetchBatches(fetch: nat -> Response, offsets: seq<nat>)
    returns (pages: Result<seq<seq<Transaction>>, FetchError>, requested: seq<nat>)
    ensures pages == FetchPages(fetch, offsets)
    ensures requested == offsets
  {
    requested := [];
    var results: seq<seq<Transaction>> := [];
    var failure: Option<FetchError> := None;
    for k := 0 to |offsets|
      invariant requested == offsets[..k]
      invariant failure.None? ==> FetchPages(fetch, offsets[..k]) == Success(results)
      invariant failure.Some? ==> FetchPages(fetch, offsets[..k]) == Failure(failure.value)
    {
      assert offsets[..k + 1][..k] == offsets[..k];
      var response := fetch(offsets[k]);
      requested := requested + [offsets[k]];
      if failure.None? {
        if !IsOk(response.status) {
          failure := Some(HttpError(response.status));
        } else {
          results := results + [PageItems(response.body)];
        }
      }
    }
    assert offsets[..|offsets|] == offsets;
    pages := if failure.Some? then Failure(failure.value) else Success(results);
  }

  /** A first page announcing at most one batch is returned as it is and
      nothing else is requested. */
  lemma SinglePage(fetch: nat -> Response)
    requires IsOk(fetch(0).status) && TotalCount(fetch(0).body) <= BatchSize
    ensures OrgTransactions(fetch) == Success(PageItems(fetch(0).body))
    ensures RequestedOffsets(fetch) == [0]
  {
  }

  /** Any failing page aborts the whole fetch: a result is returned only
      when the first page and every remaining page succeeded. */
  lemma AllPagesOrNothing(fetch: nat -> Response)
    ensures OrgTransactions(fetch).Success? <==>
      IsOk(fetch(0).status) &&
      (TotalCount(fetch(0).body) > BatchSize ==>
        forall o :: o in RemainingOffsets(TotalCount(fetch(0).body)) ==> IsOk(fetch(o).status))
  {
    var total := TotalCount(fetch(0).body);
    var offsets := RemainingOffsets(total);
    FetchPagesAllOrNothing(fetch, offsets);
    assert (forall o :: o in offsets ==> IsOk(fetch(o).status)) <==>
           (forall k :: 0 <= k < |offsets| ==> IsOk(fetch(offsets[k]).status));
  }

  /** On success the result is the first page followed by the page at
      each offset 1000, 2000, ... in offset order. */
  lemma PagesInOffsetOrder(fetch: nat -> Response)
    requires OrgTransactions(fetch).Success?
    requires TotalCount(fetch(0).body) > BatchSize
    ensures var n := (TotalCount(fetch(0).body) - 1) / BatchSize;
      OrgTransactions(fetch).value ==
        Flatten([PageItems(fetch(0).body)] +
                seq(n, k requires 0 <= k < n => PageItems(fetch(BatchSize * (k + 1)).body)))
  {
    var total := TotalCount(fetch(0).body);
    var offsets := RemainingOffsets(total);
    RemainingOffsetsShape(total);
    FetchPagesAllOrNothing(fetch, offsets);
    var n := (total - 1) / BatchSize;
    var pages := FetchPages(fetch, offsets).value;
    assert pages == seq(n, k requires 0 <= k < n => PageItems(fetch(BatchSize * (k + 1)).body));
  }
}
