/** `HCBClient.getTotalDisbursementsFromHQ` and `getOrgFromBudgetUrl`
    (src/clients/hcb.js): fetch an organisation's disbursements, deduplicate
    them, keep those sent by HQ (event 183) that are not labelled
    `no-grant-calc`, and sum their absolute amounts in integer cents; and
    derive an organisation's identity from its budget URL. */
module HcbDisbursements {
  import opened Wrappers
  import opened JsText
  import opened HcbTransactions
  import HcbPager
  import HcbDedup
  import opened Seqs

  const NoGrantCalc: string := "no-grant-calc"

  /** Attribution to HQ: either id field is the number 183, or the memo
      contains "HQ" (case-sensitive). */
  predicate Attributed(tx: Transaction)
  {
    tx.fromEventId == Some(HqEventId) ||
    tx.fromOrganizationId == Some(HqEventId) ||
    (tx.memo.Some? && Includes(tx.memo.value, "HQ"))
  }

  /** The opt-out label: some label is named `no-grant-calc`. */
  predicate Excluded(tx: Transaction)
  {
    tx.labels.Some? &&
    exists k :: 0 <= k < |tx.labels.value| && tx.labels.value[k].name == NoGrantCalc
  }

  /** The filter predicate: exclusion wins over any attribution, and a
      transaction without a `labels` field is never excluded. */
  function IsHqDisbursement(tx: Transaction): (b: bool)
    ensures b <==>
      (tx.fromEventId == Some(HqEventId) || tx.fromOrganizationId == Some(HqEventId) ||
       (tx.memo.Some? && exists k :: MatchAt(tx.memo.value, "HQ", k))) &&
      !(tx.labels.Some? && exists k :: 0 <= k < |tx.labels.value| && tx.labels.value[k].name == NoGrantCalc)
    ensures Excluded(tx) ==> !b
    ensures tx.labels.None? ==> (b <==> Attributed(tx))
    ensures b ==> Attributed(tx)
    ensures tx.fromEventId == Some(HqEventId) && !Excluded(tx) ==> b
  {
    Attributed(tx) && !Excluded(tx)
  }

  /** `uniqueTransactions.filter(...)`: the HQ disbursements, in order. */
  function HqDisbursements(txs: seq<Transaction>): (r: seq<Transaction>)
    ensures forall k :: 0 <= k < |r| ==> IsHqDisbursement(r[k])
    ensures forall k :: 0 <= k < |txs| && IsHqDisbursement(txs[k]) ==> txs[k] in r
    ensures forall tx :: multiset(r)[tx] == if IsHqDisbursement(tx) then multiset(txs)[tx] else 0
    ensures multiset(r) <= multiset(txs)
    ensures |r| <= |txs|
  {
    FilterCount(txs, IsHqDisbursement);
    Filter(txs, IsHqDisbursement)
  }

  /** The filter keeps the order of the transactions: it works on each
      transaction alone and the kept ones stay where they were relative to
      each other. */
  lemma HqDisbursementsInOrder(a: seq<Transaction>, b: seq<Transaction>, tx: Transaction)
    ensures HqDisbursements(a + b) == HqDisbursements(a) + HqDisbursements(b)
    ensures HqDisbursements([tx]) == if IsHqDisbursement(tx) then [tx] else []
  {
    FilterAppend(a, b, IsHqDisbursement);
    FilterSingleton(tx, IsHqDisbursement);
  }

  /** Filtering keeps ids distinct. */
  lemma DistinctCons(t: Transaction, rest: seq<Transaction>)
    requires HcbDedup.DistinctIds(rest)
    requires forall k :: 0 <= k < |rest| ==> rest[k].id != t.id
    ensures HcbDedup.DistinctIds([t] + rest)
  {
    var r := [t] + rest;
    forall i, j | 0 <= i < j < |r| ensures r[i].id != r[j].id {
      assert r[j] == rest[j - 1];
      if i > 0 {
        assert r[i] == rest[i - 1];
      }
    }
  }

  lemma {:induction false} FilterDistinct(txs: seq<Transaction>, keep: Transaction -> bool)
    requires HcbDedup.DistinctIds(txs)
    ensures HcbDedup.DistinctIds(Filter(txs, keep))
  {
    if txs != [] {
      var tail := txs[1..];
      FilterDistinct(tail, keep);
      var rest := Filter(tail, keep);
      if keep(txs[0]) {
        forall k | 0 <= k < |rest| ensures rest[k].id != txs[0].id {
          var j :| 0 <= j < |tail| && tail[j] == rest[k];
          assert txs[j + 1] == tail[j];
        }
        DistinctCons(txs[0], rest);
      }
    }
  }

  /** The HQ filter keeps ids distinct. */
  lemma HqDisbursementsDistinct(txs: seq<Transaction>)
    requires HcbDedup.DistinctIds(txs)
    ensures HcbDedup.DistinctIds(HqDisbursements(txs))
  {
    FilterDistinct(txs, IsHqDisbursement);
  }

  /** `tx.amount_cents ? tx.amount_cents : Math.round((tx.amount || 0) * 100)`:
      a missing or zero `amount_cents` falls through to the rounded
      `amount`. */
  function ResolvedCents(tx: Transaction): int
  {
    if tx.amountCents.Some? && tx.amountCents.value != 0 then tx.amountCents.value
    else tx.fallbackCents
  }

  function Abs(x: int): nat
  {
    if x < 0 then -x else x
  }

  /** `reduce((sum, tx) => sum + Math.abs(amountCents), 0)`. */
  function TotalCents(txs: seq<Transaction>): (r: int)
    ensures r >= 0
    ensures forall k :: 0 <= k < |txs| ==> Abs(ResolvedCents(txs[k])) <= r
  {
    if txs == [] then 0 else Abs(ResolvedCents(txs[0])) + TotalCents(txs[1..])
  }

  lemma {:induction false} TotalCentsAppend(a: seq<Transaction>, b: seq<Transaction>)
    ensures TotalCents(a + b) == TotalCents(a) + TotalCents(b)
  {
    if a == [] {
      assert a + b == b;
    } else {
      assert (a + b)[1..] == a[1..] + b;
      TotalCentsAppend(a[1..], b);
    }
  }

  /** Taking one transaction out of the middle lowers the sum by its
      absolute amount. */
  lemma TotalCentsRemove(b: seq<Transaction>, i: nat)
    requires i < |b|
    ensures TotalCents(b) == Abs(ResolvedCents(b[i])) + TotalCents(b[..i] + b[i + 1..])
  {
    assert b == b[..i] + ([b[i]] + b[i + 1..]);
    TotalCentsAppend(b[..i], [b[i]] + b[i + 1..]);
    TotalCentsAppend(b[..i], b[i + 1..]);
    assert ([b[i]] + b[i + 1..])[1..] == b[i + 1..];
  }

  lemma MultisetRemoveFirst(a: seq<Transaction>, b: seq<Transaction>, i: nat)
    requires multiset(a) == multiset(b) && a != [] && i < |b| && b[i] == a[0]
    ensures multiset(a[1..]) == multiset(b[..i] + b[i + 1..])
  {
    assert b == b[..i] + [b[i]] + b[i + 1..];
    assert multiset(b) == multiset(b[..i]) + multiset([b[i]]) + multiset(b[i + 1..]);
    assert a == [a[0]] + a[1..];
    assert multiset(a) == multiset([a[0]]) + multiset(a[1..]);
    assert multiset(b[..i] + b[i + 1..]) == multiset(b[..i]) + multiset(b[i + 1..]);
    assert multiset([a[0]]) == multiset([b[i]]);
    forall x ensures multiset(a[1..])[x] == multiset(b[..i] + b[i + 1..])[x] {
      assert multiset(a)[x] == multiset(b)[x];
    }
  }

  /** The sum does not depend on the order of the transactions. */
  lemma {:induction false} TotalCentsPermutation(a: seq<Transaction>, b: seq<Transaction>)
    requires multiset(a) == multiset(b)
    ensures TotalCents(a) == TotalCents(b)
    decreases |a|
  {
    if a == [] {
      assert |b| == |multiset(b)| == 0;
    } else {
      assert a[0] in multiset(b);
      var i :| 0 <= i < |b| && b[i] == a[0];
      MultisetRemoveFirst(a, b, i);
      TotalCentsPermutation(a[1..], b[..i] + b[i + 1..]);
      TotalCentsRemove(b, i);
    }
  }

  /** Filtering can only lower the total. */
  lemma {:induction false} FilteredTotalBounded(txs: seq<Transaction>)
    ensures TotalCents(HqDisbursements(txs)) <= TotalCents(txs)
  {
    if txs != [] {
      FilteredTotalBounded(txs[1..]);
    }
  }

  datatype DisbursementSummary = DisbursementSummary(
    totalAmountCents: int,
    disbursementCount: nat,
    disbursements: seq<Transaction>)

  /** What `getTotalDisbursementsFromHQ` returns for a given network. */
  function DisbursementsFromHq(fetch: nat -> Response): Result<DisbursementSummary, FetchError>
  {
    match HcbPager.OrgTransactions(fetch)
    case Failure(e) => Failure(e)
    case Success(transactions) =>
      var hq := HqDisbursements(HcbDedup.Dedup(transactions));
      Success(DisbursementSummary(TotalCents(hq), |hq|, hq))
  }

  method GetTotalDisbursementsFromHq(fetch: nat -> Response)
    returns (result: Result<DisbursementSummary, FetchError>)
    ensures result == DisbursementsFromHq(fetch)
    ensures result.Failure? <==> HcbPager.OrgTransactions(fetch).Failure?
  {
    var transactions, _ := HcbPager.GetOrgTransactions(fetch);
    if transactions.Failure? {
      return Failure(transactions.error);
    }
    var uniqueTransactions := HcbDedup.Deduplicate(transactions.value);
    var hqDisbursements := HqDisbursements(uniqueTransactions);
    var totalDisbursedCents := TotalCents(hqDisbursements);
    result := Success(DisbursementSummary(totalDisbursedCents, |hqDisbursements|, hqDisbursements));
  }

  /** The summary counts each transaction id at most once, only HQ
      disbursements, and its total is the sum of their absolute amounts:
      non-negative and at most the total of all unique transactions. */
  lemma SummaryFacts(fetch: nat -> Response)
    requires DisbursementsFromHq(fetch).Success?
    ensures var s := DisbursementsFromHq(fetch).value;
      var unique := HcbDedup.Dedup(HcbPager.OrgTransactions(fetch).value);
      && s.totalAmountCents == TotalCents(s.disbursements)
      && 0 <= s.totalAmountCents <= TotalCents(unique)
      && s.disbursementCount == |s.disbursements| <= |unique|
      && HcbDedup.DistinctIds(s.disbursements)
      && (forall k :: 0 <= k < |s.disbursements| ==> IsHqDisbursement(s.disbursements[k]))
  {
    var unique := HcbDedup.Dedup(HcbPager.OrgTransactions(fetch).value);
    HcbDedup.DedupSpec(HcbPager.OrgTransactions(fetch).value);
    HqDisbursementsDistinct(unique);
    FilteredTotalBounded(unique);
  }

  /** The identity derived from a budget URL. The display name is derived
      from the slug: the first `ysws-budget-` dropped and the first `-`
      turned into a space. */
  datatype Org = Org(eventId: string, slug: string)
  {
    function Name(): string
    {
      ReplaceFirst(ReplaceFirst(slug, BudgetPrefix, ""), "-", " ")
    }
  }

  const BudgetPrefix: string := "ysws-budget-"

  /** `getOrgFromBudgetUrl`: the last path segment is both the event id and
      the slug (empty for a trailing slash); the display name drops the
      first `ysws-budget-` and turns the first `-` into a space. */
  function OrgFromBudgetUrl(budgetUrl: string): (org: Org)
    ensures org.eventId == org.slug
    ensures '/' !in org.slug
    ensures budgetUrl != [] && budgetUrl[|budgetUrl| - 1] == '/' ==> org.slug == []
  {
    var budgetSlug := LastSegment(budgetUrl, '/');
    Org(budgetSlug, budgetSlug)
  }

  /** The slug is the whole URL when it has no `/`, and otherwise what
      follows its last `/`. */
  lemma BudgetUrlShape(budgetUrl: string)
    ensures var slug := OrgFromBudgetUrl(budgetUrl).slug;
      budgetUrl == slug || (|slug| < |budgetUrl| &&
        budgetUrl == budgetUrl[..|budgetUrl| - |slug| - 1] + "/" + slug)
  {
    var slug := OrgFromBudgetUrl(budgetUrl).slug;
    if |slug| < |budgetUrl| {
      assert budgetUrl == budgetUrl[..|budgetUrl| - |slug| - 1] + [budgetUrl[|budgetUrl| - |slug| - 1]] + budgetUrl[|budgetUrl| - |slug|..];
    }
  }

  lemma PrefixIndex(rest: string)
    ensures IndexOf(BudgetPrefix + rest, BudgetPrefix) == Some(0)
  {
    assert (BudgetPrefix + rest)[0..|BudgetPrefix|] == BudgetPrefix;
  }

  lemma {:induction false} NoDashIndex(rest: string)
    requires '-' !in rest
    ensures IndexOf(rest, "-") == None
  {
    forall k ensures !MatchAt(rest, "-", k) {
      if 0 <= k && k + 1 <= |rest| {
        assert rest[k..k + 1] == [rest[k]];
      }
    }
    IndexFromSpec(rest, "-", 0);
  }

  /** For a slug that starts with `ysws-budget-`, the name is the rest with
      its first `-` made a space; a rest without `-` is the name itself. */
  lemma BudgetSlugName(budgetUrl: string, rest: string)
    requires LastSegment(budgetUrl, '/') == BudgetPrefix + rest
    ensures OrgFromBudgetUrl(budgetUrl).Name() == ReplaceFirst(rest, "-", " ")
    ensures '-' !in rest ==> OrgFromBudgetUrl(budgetUrl).Name() == rest
  {
    var slug := BudgetPrefix + rest;
    PrefixIndex(rest);
    assert ReplaceFirst(slug, BudgetPrefix, "") == rest by {
      assert slug[|BudgetPrefix|..] == rest;
    }
    if '-' !in rest {
      NoDashIndex(rest);
    }
  }
}
