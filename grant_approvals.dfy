/** The `run` action and `processGrantApprovals` of index.js, the older
    grant workflow: keep the records that have a budget fund, look up each
    one's organisation and HQ disbursements (a failing lookup still yields
    an entry), review every grant with the operator (no grant is skipped
    without a prompt), total the approved transfers clamped at zero, and
    open a payment page for each approved grant with a positive transfer. */
module GrantApprovals {
  import opened Wrappers
  import opened JsText
  import opened HcbDisbursements
  import opened Approval
  import opened Seqs

  /** One grant record. `weightedGrantsCents` is the parsed
      `USD for Weighted Grants` in cents (0 when the field is falsy); an
      absent `Name` or `HCB Budget Fund` is the empty string. */
  datatype GrantRecord = GrantRecord(name: string, budgetFund: string, weightedGrantsCents: int)

  /** The fields index.js reads from the disbursement lookup. */
  datatype HqTotals = HqTotals(totalAmountCents: int, disbursementCount: nat)

  /** `record.fields['HCB Budget Fund'] && record.fields['HCB Budget Fund'].trim() !== ''`. */
  predicate HasBudgetFund(r: GrantRecord)
  {
    Trim(r.budgetFund) != ""
  }

  /** A record is kept exactly when its budget fund has a character that is
      not whitespace. */
  lemma HasBudgetFundIff(r: GrantRecord)
    ensures HasBudgetFund(r) <==> exists k :: 0 <= k < |r.budgetFund| && !IsJsWhitespace(r.budgetFund[k])
  {
    TrimBlank(r.budgetFund);
  }

  /** `allRecords.filter(...)`: the records with a budget fund, in order. */
  function ValidRecords(records: seq<GrantRecord>): (r: seq<GrantRecord>)
    ensures forall k :: 0 <= k < |r| ==> HasBudgetFund(r[k])
    ensures forall k :: 0 <= k < |records| && HasBudgetFund(records[k]) ==> records[k] in r
    ensures forall rec :: multiset(r)[rec] == if HasBudgetFund(rec) then multiset(records)[rec] else 0
  {
    FilterCount(records, HasBudgetFund);
    Filter(records, HasBudgetFund)
  }

  /** The filter keeps the records in their order, which is the order of
      the review: each record is kept or dropped on its own. */
  lemma ValidRecordsInOrder(a: seq<GrantRecord>, b: seq<GrantRecord>, rec: GrantRecord)
    ensures ValidRecords(a + b) == ValidRecords(a) + ValidRecords(b)
    ensures ValidRecords([rec]) == if HasBudgetFund(rec) then [rec] else []
  {
    FilterAppend(a, b, HasBudgetFund);
    FilterSingleton(rec, HasBudgetFund);
  }

  /** The entry `run` builds for one record: the organisation parsed from
      the budget URL, absent after a failed lookup (`org: { eventId: null,
      name: 'Unknown' }`), what HQ has disbursed to it, and the lookup's
      error message. */
  datatype GrantData = GrantData(
    record: GrantRecord,
    org: Option<Org>,
    totalAmountCents: int,
    disbursementCount: nat,
    error: Option<string>)
  {
    /** `org.org.eventId`, `None` standing for `null`. */
    function EventId(): Option<string>
    {
      if org.Some? then Some(org.value.eventId) else None
    }

    /** `record.fields['Name'] || org.name`, or `|| 'Unknown'` after a
        failed lookup. */
    function Name(): string
    {
      if record.name != "" then record.name
      else if org.Some? then org.value.Name()
      else "Unknown"
    }
  }

  /** What the loop of `run` records for one record, given the disbursement
      lookup as `lookup` (a thrown error is `Failure`). There is no lookup
      when the event id is empty. */
  function GrantEntry(rec: GrantRecord, lookup: string -> Result<HqTotals, string>): GrantData
  {
    var org := OrgFromBudgetUrl(rec.budgetFund);
    if org.eventId == "" then GrantData(rec, Some(org), 0, 0, None)
    else
      match lookup(org.eventId)
      case Success(t) => GrantData(rec, Some(org), t.totalAmountCents, t.disbursementCount, None)
      case Failure(msg) => GrantData(rec, None, 0, 0, Some(msg))
  }

  /** `org.weightedGrantsAmount - org.disbursementData.totalAmount`, not
      clamped: negative for an over-disbursed grant. */
  function GrantTransfer(g: GrantData): int
  {
    g.record.weightedGrantsCents - g.totalAmountCents
  }

  /** A record whose lookup fails still gets an entry, with no
      organisation, zero disbursements and the error, so its whole weighted
      amount is owed and it is named `Unknown` unless the record has a
      name; an entry has an organisation exactly when no error was
      recorded. */
  lemma GrantEntryIsolation(rec: GrantRecord, lookup: string -> Result<HqTotals, string>)
    ensures var g := GrantEntry(rec, lookup);
      && g.record == rec
      && (g.error.Some? <==> g.org.None?)
      && (g.error.Some? ==> g.totalAmountCents == 0 && g.disbursementCount == 0 &&
                            GrantTransfer(g) == rec.weightedGrantsCents &&
                            g.Name() == (if rec.name != "" then rec.name else "Unknown"))
  {
    var org := OrgFromBudgetUrl(rec.budgetFund);
    if org.eventId == "" {
      assert GrantEntry(rec, lookup) == GrantData(rec, Some(org), 0, 0, None);
    } else {
      match lookup(org.eventId)
      case Success(t) =>
        assert GrantEntry(rec, lookup) == GrantData(rec, Some(org), t.totalAmountCents, t.disbursementCount, None);
      case Failure(msg) =>
        var g := GrantData(rec, None, 0, 0, Some(msg));
        assert GrantEntry(rec, lookup) == g;
        assert g.Name() == (if rec.name != "" then rec.name else "Unknown");
    }
  }

  /** The organisation of an entry, when present, is the one parsed from
      its budget URL, so its event id is the URL's last path segment; when
      that id is not empty, the lookup for exactly that id succeeded and
      supplied the entry's totals in cents. */
  lemma GrantEntryLookup(rec: GrantRecord, lookup: string -> Result<HqTotals, string>)
    ensures var g := GrantEntry(rec, lookup);
      g.org.Some? ==> g.org.value == OrgFromBudgetUrl(rec.budgetFund) &&
                      g.EventId() == Some(LastSegment(rec.budgetFund, '/'))
    ensures var g := GrantEntry(rec, lookup);
      g.org.Some? && g.org.value.eventId != "" ==>
        var t := lookup(g.org.value.eventId);
        t.Success? && g.totalAmountCents == t.value.totalAmountCents &&
        g.disbursementCount == t.value.disbursementCount
  {
    var org := OrgFromBudgetUrl(rec.budgetFund);
    assert org.eventId == LastSegment(rec.budgetFund, '/');
    if org.eventId == "" {
      assert GrantEntry(rec, lookup) == GrantData(rec, Some(org), 0, 0, None);
    } else {
      match lookup(org.eventId)
      case Success(t) =>
        assert GrantEntry(rec, lookup) == GrantData(rec, Some(org), t.totalAmountCents, t.disbursementCount, None);
      case Failure(msg) =>
        assert GrantEntry(rec, lookup) == GrantData(rec, None, 0, 0, Some(msg));
    }
  }

  /** As written, index.js keeps the lookup's result object whole and then
      reads its `totalAmount`; the object only has `totalAmountCents`, so
      after a successful lookup `totalAmount` is undefined (`None` here).
      Without a lookup, or after a failed one, it is the literal 0. */
  function WrittenTotalAmount(rec: GrantRecord, lookup: string -> Result<HqTotals, string>): Option<int>
  {
    var org := OrgFromBudgetUrl(rec.budgetFund);
    if org.eventId == "" then Some(0)
    else
      match lookup(org.eventId)
      case Success(_) => None
      case Failure(_) => Some(0)
  }

  /** `org.disbursementData.totalAmount.toFixed(2)` when the review shows a
      grant: a `TypeError` on an undefined total. */
  function ShowTotalAsWritten(totalAmount: Option<int>): Result<int, string>
  {
    if totalAmount.None? then Failure("TypeError") else Success(totalAmount.value)
  }

  /** As written, displaying a grant throws exactly when its lookup
      succeeded, and the `run` action's `catch` then ends the process.
      Grants decided by an earlier `a` or `q` are never displayed, so they
      do not throw; their transfers are `NaN` instead. The model uses the
      lookup's `totalAmountCents` (`GrantEntryLookup`). */
  lemma AsWrittenReviewThrows(rec: GrantRecord, lookup: string -> Result<HqTotals, string>)
    ensures ShowTotalAsWritten(WrittenTotalAmount(rec, lookup)).Failure? <==>
      OrgFromBudgetUrl(rec.budgetFund).eventId != "" &&
      lookup(OrgFromBudgetUrl(rec.budgetFund).eventId).Success?
  {
  }

  /** `org.org.slug ? org.org.slug.replace('ysws-budget-', '') : org.name`. */
  function DisplayName(g: GrantData): string
  {
    if g.org.Some? && g.org.value.slug != "" then ReplaceFirst(g.org.value.slug, BudgetPrefix, "")
    else g.Name()
  }

  /** The name shown for a grant: a budget slug loses its leading
      `ysws-budget-`; without a slug it is the entry's name. */
  lemma DisplayNameSpec(g: GrantData, rest: string)
    ensures g.org.None? || g.org.value.slug == "" ==> DisplayName(g) == g.Name()
    ensures g.org.Some? && g.org.value.slug == BudgetPrefix + rest && rest != "" ==>
      DisplayName(g) == rest
  {
    if g.org.Some? && g.org.value.slug == BudgetPrefix + rest && rest != "" {
      var slug := BudgetPrefix + rest;
      PrefixIndex(rest);
      assert slug[|BudgetPrefix|..] == rest;
    }
  }

  /** index.js prompts for every grant: nothing is rejected unprompted. */
  predicate NoAutoSkip(g: GrantData)
  {
    false
  }

  /** The entries of the loop of `run`, one per kept record. */
  function GrantEntries(records: seq<GrantRecord>, lookup: string -> Result<HqTotals, string>): (r: seq<GrantData>)
    ensures |r| == |records|
    decreases |records|
  {
    if records == [] then []
    else GrantEntries(records[..|records| - 1], lookup) + [GrantEntry(records[|records| - 1], lookup)]
  }

  /** Each record's entry depends on that record alone: one failing lookup
      leaves every other entry as it would be. */
  lemma {:induction false} GrantEntriesAt(records: seq<GrantRecord>, lookup: string -> Result<HqTotals, string>, i: nat)
    requires i < |records|
    ensures GrantEntries(records, lookup)[i] == GrantEntry(records[i], lookup)
    decreases |records|
  {
    var init := records[..|records| - 1];
    var last := GrantEntry(records[|records| - 1], lookup);
    assert GrantEntries(records, lookup) == GrantEntries(init, lookup) + [last];
    if i < |records| - 1 {
      GrantEntriesAt(init, lookup, i);
      assert init[i] == records[i];
    }
  }

  lemma GrantEntriesStep(records: seq<GrantRecord>, lookup: string -> Result<HqTotals, string>, i: nat)
    requires i < |records|
    ensures GrantEntries(records[..i + 1], lookup) == GrantEntries(records[..i], lookup) + [GrantEntry(records[i], lookup)]
  {
    assert records[..i + 1][..i] == records[..i];
  }

  /** The loop of `run`. */
  method CollectGrantData(validRecords: seq<GrantRecord>, lookup: string -> Result<HqTotals, string>)
    returns (orgData: seq<GrantData>)
    ensures orgData == GrantEntries(validRecords, lookup)
  {
    orgData := [];
    for i := 0 to |validRecords|
      invariant orgData == GrantEntries(validRecords[..i], lookup)
    {
      var entry := LookUpGrant(validRecords[i], lookup);
      GrantEntriesStep(validRecords, lookup, i);
      orgData := orgData + [entry];
    }
    assert validRecords[..|validRecords|] == validRecords;
  }

  /** The body of the loop of `run` for one record: the lookup and, when
      it throws, the entry of the `catch` block. */
  method LookUpGrant(record: GrantRecord, lookup: string -> Result<HqTotals, string>) returns (entry: GrantData)
    ensures entry == GrantEntry(record, lookup)
  {
    var org := OrgFromBudgetUrl(record.budgetFund);
    var totals := HqTotals(0, 0);
    var failed: Option<string> := None;
    if org.eventId != "" {
      var result := lookup(org.eventId);
      match result
      case Success(t) => totals := t;
      case Failure(msg) => failed := Some(msg);
    }
    if failed.None? {
      entry := GrantData(record, Some(org), totals.totalAmountCents, totals.disbursementCount, None);
    } else {
      entry := GrantData(record, None, 0, 0, failed);
    }
  }

  /** The review loop of `processGrantApprovals`, run until every grant is
      decided or the operator's input ends. */
  method ReviewGrants(orgData: seq<GrantData>, input: seq<Command>)
    returns (approved: seq<GrantData>, rejected: seq<GrantData>, currentIndex: nat)
    ensures var t := ReviewAll(orgData, NoAutoSkip, input);
      approved == t.approved && rejected == t.rejected && currentIndex == t.index
  {
    approved, rejected, currentIndex := [], [], 0;
    var pending := input;
    while currentIndex < |orgData|
      invariant currentIndex <= |orgData|
      invariant Run(orgData, NoAutoSkip, Review(currentIndex, approved, rejected, pending)) ==
                ReviewAll(orgData, NoAutoSkip, input)
      decreases |pending|, |orgData| - currentIndex
    {
      ghost var st := Review(currentIndex, approved, rejected, pending);
      var org := orgData[currentIndex];
      if pending == [] {
        break;
      }
      var choice := pending[0];
      pending := pending[1..];
      ghost var next := Apply(orgData, st, choice).(input := pending);
      RunStep(orgData, NoAutoSkip, st);
      match choice
      case Help =>
      case Approve =>
        approved := approved + [org];
        currentIndex := currentIndex + 1;
      case Reject =>
        rejected := rejected + [org];
        currentIndex := currentIndex + 1;
      case ApproveRest =>
        approved := PushRemaining(approved, orgData, currentIndex);
        currentIndex := |orgData|;
      case RejectRest =>
        rejected := PushRemaining(rejected, orgData, currentIndex);
        currentIndex := |orgData|;
      assert Review(currentIndex, approved, rejected, pending) == next;
    }
  }

  /** Every grant is prompted: without input nothing is decided, and an
      unfinished review stopped at a grant because the input ran out. */
  lemma EveryGrantPrompted(orgData: seq<GrantData>, input: seq<Command>)
    ensures var t := ReviewAll(orgData, NoAutoSkip, input);
      t.index < |orgData| ==> t.input == []
    ensures |input| == 0 ==> ReviewAll(orgData, NoAutoSkip, input).index == 0
  {
  }

  /** The review of three grants answered `n` then `a`: the first is
      rejected, the other two approved in order. */
  lemma RejectThenApproveRest(g0: GrantData, g1: GrantData, g2: GrantData)
    ensures var t := ReviewAll([g0, g1, g2], NoAutoSkip, [Reject, ApproveRest]);
      t.rejected == [g0] && t.approved == [g1, g2] && t.index == 3 && t.input == []
  {
    var cands := [g0, g1, g2];
    var s0 := Review(0, [], [], [Reject, ApproveRest]);
    RunStep(cands, NoAutoSkip, s0);
    var s1 := Step(cands, NoAutoSkip, s0);
    assert s1 == Review(1, [], [g0], [ApproveRest]);
    RunStep(cands, NoAutoSkip, s1);
    var s2 := Step(cands, NoAutoSkip, s1);
    assert cands[1..] == [g1, g2];
    assert s2 == Review(3, [g1, g2], [g0], []);
    assert Run(cands, NoAutoSkip, s2) == s2;
  }

  /** The displayed total: `Math.max(0, transfer)` summed over the
      approved grants. */
  function GrantTotal(approved: seq<GrantData>): (total: int)
    ensures total >= 0
    ensures forall k :: 0 <= k < |approved| ==> GrantTransfer(approved[k]) <= total
    decreases |approved|
  {
    if approved == [] then 0
    else
      var last := GrantTransfer(approved[|approved| - 1]);
      GrantTotal(approved[..|approved| - 1]) + (if last > 0 then last else 0)
  }

  /** The payment page `openDisbursementTab` opens: the event id is passed
      as it is, `None` standing for `null`. */
  datatype GrantLink = GrantLink(eventId: Option<string>, amountCents: nat)

  /** `transferAmount > 0`: the approved grants that get a payment page. */
  predicate Owed(g: GrantData)
  {
    GrantTransfer(g) > 0
  }

  /** The links opened for the approved grants, in order: the guard
      `transferAmount > 0` lets through at most one link per grant, each for
      a positive amount. */
  function GrantLinks(approved: seq<GrantData>): (links: seq<GrantLink>)
    ensures |links| <= |approved|
    ensures forall k :: 0 <= k < |links| ==> links[k].amountCents > 0
    decreases |approved|
  {
    if approved == [] then []
    else
      var g := approved[|approved| - 1];
      GrantLinks(approved[..|approved| - 1]) +
      (if GrantTransfer(g) > 0 then [GrantLink(g.EventId(), GrantTransfer(g))] else [])
  }

  /** `links` are the payment links of the grants `owed`, one each, in
      order: that grant's event id and its positive transfer. */
  predicate LinksFor(links: seq<GrantLink>, owed: seq<GrantData>)
  {
    |links| == |owed| &&
    forall k :: 0 <= k < |owed| ==>
      GrantTransfer(owed[k]) > 0 && links[k] == GrantLink(owed[k].EventId(), GrantTransfer(owed[k]))
  }

  lemma LinksForStep(links0: seq<GrantLink>, owed0: seq<GrantData>, g: GrantData)
    requires LinksFor(links0, owed0)
    ensures GrantTransfer(g) > 0 ==> LinksFor(links0 + [GrantLink(g.EventId(), GrantTransfer(g))], owed0 + [g])
  {
  }

  /** Exactly one link is opened for each approved grant with a positive
      transfer, in approved order, for that grant's event id (with no check
      on it) and its transfer. */
  lemma {:induction false} GrantLinksSpec(approved: seq<GrantData>)
    ensures LinksFor(GrantLinks(approved), Filter(approved, Owed))
    decreases |approved|
  {
    if approved != [] {
      var init := approved[..|approved| - 1];
      var g := approved[|approved| - 1];
      GrantLinksSpec(init);
      assert approved == init + [g];
      FilterAppend(init, [g], Owed);
      FilterSingleton(g, Owed);
      LinksForStep(GrantLinks(init), Filter(init, Owed), g);
    }
  }

  function LinkTotal(links: seq<GrantLink>): nat
  {
    if links == [] then 0 else LinkTotal(links[..|links| - 1]) + links[|links| - 1].amountCents
  }

  lemma {:induction false} LinkTotalAppend(a: seq<GrantLink>, b: seq<GrantLink>)
    ensures LinkTotal(a + b) == LinkTotal(a) + LinkTotal(b)
    decreases |b|
  {
    if b == [] {
      assert a + b == a;
    } else {
      var b' := b[..|b| - 1];
      assert (a + b)[..|a + b| - 1] == a + b';
      LinkTotalAppend(a, b');
    }
  }

  /** The links opened ask, together, for exactly the displayed total. */
  lemma {:induction false} LinksMatchTotal(approved: seq<GrantData>)
    ensures LinkTotal(GrantLinks(approved)) == GrantTotal(approved)
    decreases |approved|
  {
    if approved != [] {
      var init := approved[..|approved| - 1];
      var g := approved[|approved| - 1];
      LinksMatchTotal(init);
      var tail := if GrantTransfer(g) > 0 then [GrantLink(g.EventId(), GrantTransfer(g))] else [];
      LinkTotalAppend(GrantLinks(init), tail);
      if tail != [] {
        assert tail[..0] == [];
      }
    }
  }

  /** A grant whose lookup failed is still paid through a link with no
      event id (`event_id=null`) once approved with a positive amount. */
  lemma FailedLookupStillLinked(rec: GrantRecord, lookup: string -> Result<HqTotals, string>)
    requires rec.weightedGrantsCents > 0
    requires OrgFromBudgetUrl(rec.budgetFund).eventId != ""
    requires lookup(OrgFromBudgetUrl(rec.budgetFund).eventId).Failure?
    ensures GrantLinks([GrantEntry(rec, lookup)]) == [GrantLink(None, rec.weightedGrantsCents)]
  {
    var g := GrantEntry(rec, lookup);
    assert [g][..0] == [];
  }

  lemma GrantLinksStep(approved: seq<GrantData>, k: nat)
    requires k < |approved|
    ensures GrantLinks(approved[..k + 1]) == GrantLinks(approved[..k]) +
      (if GrantTransfer(approved[k]) > 0 then [GrantLink(approved[k].EventId(), GrantTransfer(approved[k]))] else [])
  {
    assert approved[..k + 1][..k] == approved[..k];
    assert approved[..k + 1][k] == approved[k];
  }

  /** The tab-opening loop of `processGrantApprovals`. */
  method OpenDisbursementTabs(approved: seq<GrantData>) returns (links: seq<GrantLink>)
    ensures links == GrantLinks(approved)
  {
    links := [];
    for k := 0 to |approved|
      invariant links == GrantLinks(approved[..k])
    {
      var org := approved[k];
      GrantLinksStep(approved, k);
      var transferAmount := org.record.weightedGrantsCents - org.totalAmountCents;
      if transferAmount > 0 {
        links := links + [GrantLink(org.EventId(), transferAmount)];
      }
    }
    assert approved[..|approved|] == approved;
  }

  datatype GrantSummary = GrantSummary(
    approved: seq<GrantData>,
    rejected: seq<GrantData>,
    totalToTransferCents: int,
    links: seq<GrantLink>)

  /** How a `run` ends: no record has a budget fund; the operator's input
      ended before every grant was decided; or the review finished. */
  datatype GrantRun = NoBudgetFunds | Interrupted | Finished(summary: GrantSummary)

  /** `processGrantApprovals`. */
  method ProcessGrantApprovals(orgData: seq<GrantData>, input: seq<Command>)
    returns (summary: Option<GrantSummary>)
    ensures var t := ReviewAll(orgData, NoAutoSkip, input);
      && (summary.Some? <==> t.index == |orgData|)
      && (summary.Some? ==>
            summary.value == GrantSummary(t.approved, t.rejected, GrantTotal(t.approved), GrantLinks(t.approved)))
  {
    var approved, rejected, currentIndex := ReviewGrants(orgData, input);
    if currentIndex < |orgData| {
      return None;
    }
    var totalToTransfer := GrantTotal(approved);
    var links := OpenDisbursementTabs(approved);
    summary := Some(GrantSummary(approved, rejected, totalToTransfer, links));
  }

  /** The `run` action after authentication and the record fetch. */
  method RunGrantWorkflow(allRecords: seq<GrantRecord>, lookup: string -> Result<HqTotals, string>,
                          input: seq<Command>)
    returns (outcome: GrantRun)
    ensures var valid := ValidRecords(allRecords);
      var orgData := GrantEntries(valid, lookup);
      var t := ReviewAll(orgData, NoAutoSkip, input);
      && (outcome.NoBudgetFunds? <==> valid == [])
      && (outcome.Finished? <==> valid != [] && t.index == |orgData|)
      && (outcome.Finished? ==>
            outcome.summary == GrantSummary(t.approved, t.rejected, GrantTotal(t.approved), GrantLinks(t.approved)))
  {
    var validRecords := ValidRecords(allRecords);
    if |validRecords| == 0 {
      return NoBudgetFunds;
    }
    var orgData := CollectGrantData(validRecords, lookup);
    var summary := ProcessGrantApprovals(orgData, input);
    if summary.None? {
      return Interrupted;
    }
    outcome := Finished(summary.value);
  }

  /** A finished grant review decides every grant exactly once, the
      approved and rejected lists splitting the grants in their order. */
  lemma GrantPartition(orgData: seq<GrantData>, input: seq<Command>)
    ensures var t := ReviewAll(orgData, NoAutoSkip, input);
      t.index == |orgData| ==>
        Interleaving(orgData, t.approved, t.rejected) &&
        multiset(t.approved) + multiset(t.rejected) == multiset(orgData)
  {
    ReviewPartitions(orgData, NoAutoSkip, input);
  }
}
