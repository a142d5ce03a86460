/** `processProgramPayouts` and `openTransferTab` (program-payouts.js):
    for every program, look up its HCB organisation and what HQ has already
    disbursed to it, compute the transfer still owed in integer cents,
    review the programs with the operator, and open a payment page for
    each approved program with something to transfer. */
module ProgramPayouts {
  import opened Wrappers
  import opened JsText
  import opened HcbTransactions
  import opened HcbDisbursements
  import opened Approval

  /** One row of the Programs table. `targetCents` is
      `Math.round(weightedTotal * 85 * 100)`; an absent `Name` or `HCB`
      field is the empty string, which is as falsy as a missing one. */
  datatype Program = Program(name: string, targetCents: int, hcbUrl: string)

  /** The transfer decision: what is still owed and how much was paid
      beyond the target. */
  datatype Transfer = Transfer(transferCents: nat, overDisbursedCents: nat)

  /** `transferAmountCents = Math.max(0, target - disbursed)` and the
      over-disbursement `|target - disbursed|` when that is negative. */
  function ComputeTransfer(targetCents: int, disbursedCents: int): (t: Transfer)
    ensures t.transferCents - t.overDisbursedCents == targetCents - disbursedCents
    ensures t.transferCents == 0 || t.overDisbursedCents == 0
  {
    var raw := targetCents - disbursedCents;
    Transfer(if raw > 0 then raw else 0, if raw < 0 then -raw else 0)
  }

  /** The two facts above pin the decision down: any owed/over pair with
      the same difference, at most one of them nonzero, is this one. In
      particular both are zero exactly when target and disbursed agree. */
  lemma TransferUnique(targetCents: int, disbursedCents: int, other: Transfer)
    requires other.transferCents - other.overDisbursedCents == targetCents - disbursedCents
    requires other.transferCents == 0 || other.overDisbursedCents == 0
    ensures other == ComputeTransfer(targetCents, disbursedCents)
    ensures ComputeTransfer(targetCents, disbursedCents) == Transfer(0, 0) <==> targetCents == disbursedCents
  {
  }

  /** The entry `processProgramPayouts` builds for one program. */
  datatype ProgramData = ProgramData(
    program: Program,
    programName: string,
    org: Option<Org>,
    disbursedCents: int,
    disbursementCount: nat,
    transfer: Transfer,
    error: Option<FetchError>)

  /** What the first loop of `processProgramPayouts` records for one
      program, given the HCB API as `source` (event id to its transactions
      endpoint). Without an HCB URL there is no lookup; with an empty event
      id there is no disbursement fetch; a failed fetch leaves the totals at
      zero and records the error. */
  function ProgramEntry(p: Program, source: string -> nat -> Response): (d: ProgramData)
  {
    var programName := if p.name != "" then p.name else "Unknown Program";
    var org := if p.hcbUrl != "" then Some(OrgFromBudgetUrl(p.hcbUrl)) else None;
    var lookup :=
      if org.Some? && org.value.eventId != "" then
        match DisbursementsFromHq(source(org.value.eventId))
        case Success(s) => Success((s.totalAmountCents, s.disbursementCount))
        case Failure(e) => Failure(e)
      else Success((0, 0));
    var (disbursed, count) := if lookup.Success? then lookup.value else (0, 0);
    ProgramData(p, programName, org, disbursed, count,
                ComputeTransfer(p.targetCents, disbursed),
                if lookup.Failure? then Some(lookup.error) else None)
  }

  /** Per-program isolation: an entry without an HCB URL or an event id
      does not depend on the network at all; a failed lookup leaves zero
      disbursements, so the whole target is owed. */
  lemma ProgramEntryIsolation(p: Program, source: string -> nat -> Response, other: string -> nat -> Response)
    ensures var d := ProgramEntry(p, source);
      (p.hcbUrl == "" ==> d.org.None? && d.error.None?) &&
      (d.error.Some? ==> d.disbursedCents == 0 && d.disbursementCount == 0 &&
                         d.transfer == ComputeTransfer(p.targetCents, 0)) &&
      (d.org.Some? ==> d.org.value == OrgFromBudgetUrl(p.hcbUrl)) &&
      (d.disbursedCents >= 0)
    ensures p.hcbUrl == "" || LastSegment(p.hcbUrl, '/') == "" ==>
      ProgramEntry(p, source) == ProgramEntry(p, other)
    ensures var d := ProgramEntry(p, source);
      p.hcbUrl == "" || LastSegment(p.hcbUrl, '/') == "" ==>
        d.error.None? && d.disbursedCents == 0 && d.disbursementCount == 0
    ensures var d := ProgramEntry(p, source);
      var eventId := LastSegment(p.hcbUrl, '/');
      p.hcbUrl != "" && eventId != "" ==>
        var r := DisbursementsFromHq(source(eventId));
        && (r.Success? ==> d.error.None? && d.disbursedCents == r.value.totalAmountCents &&
                           d.disbursementCount == r.value.disbursementCount)
        && (r.Failure? ==> d.error == Some(r.error))
  {
    var d := ProgramEntry(p, source);
    if d.org.Some? && d.org.value.eventId != "" {
      var r := DisbursementsFromHq(source(d.org.value.eventId));
      if r.Success? {
        SummaryFacts(source(d.org.value.eventId));
      }
    }
  }

  /** `data.transferAmount <= 0 || !data.org || !data.org.eventId`: the
      programs rejected without a prompt. */
  predicate AutoSkipped(d: ProgramData)
  {
    d.transfer.transferCents == 0 || d.org.None? || d.org.value.eventId == ""
  }

  /** A program whose disbursement lookup failed is not skipped: with a
      positive target it is offered for payment of the whole target. */
  lemma FailedLookupIsOffered(p: Program, source: string -> nat -> Response)
    requires ProgramEntry(p, source).error.Some?
    requires p.targetCents > 0
    ensures !AutoSkipped(ProgramEntry(p, source))
    ensures ProgramEntry(p, source).transfer.transferCents == p.targetCents
  {
  }

  /** The entries of the first loop, one per program, in order. */
  function ProgramEntries(programs: seq<Program>, source: string -> nat -> Response): (r: seq<ProgramData>)
    ensures |r| == |programs|
    decreases |programs|
  {
    if programs == [] then []
    else ProgramEntries(programs[..|programs| - 1], source) + [ProgramEntry(programs[|programs| - 1], source)]
  }

  /** Each program's entry is computed from that program alone. */
  lemma {:induction false} ProgramEntriesAt(programs: seq<Program>, source: string -> nat -> Response, i: nat)
    requires i < |programs|
    ensures ProgramEntries(programs, source)[i] == ProgramEntry(programs[i], source)
    decreases |programs|
  {
    var init := programs[..|programs| - 1];
    var last := ProgramEntry(programs[|programs| - 1], source);
    assert ProgramEntries(programs, source) == ProgramEntries(init, source) + [last];
    if i < |programs| - 1 {
      ProgramEntriesAt(init, source, i);
      assert init[i] == programs[i];
    }
  }

  lemma ProgramEntriesStep(programs: seq<Program>, source: string -> nat -> Response, i: nat)
    requires i < |programs|
    ensures ProgramEntries(programs[..i + 1], source) ==
            ProgramEntries(programs[..i], source) + [ProgramEntry(programs[i], source)]
  {
    assert programs[..i + 1][..i] == programs[..i];
  }

  /** The first loop of `processProgramPayouts`. */
  method CollectProgramData(programs: seq<Program>, source: string -> nat -> Response)
    returns (programData: seq<ProgramData>)
    ensures programData == ProgramEntries(programs, source)
  {
    programData := [];
    for i := 0 to |programs|
      invariant programData == ProgramEntries(programs[..i], source)
    {
      var entry := LookUpProgram(programs[i], source);
      ProgramEntriesStep(programs, source, i);
      programData := programData + [entry];
    }
    assert programs[..|programs|] == programs;
  }

  /** The body of the first loop for one program: the URL parse, the
      disbursement fetch and, when the fetch throws, the `catch` block. */
  method LookUpProgram(program: Program, source: string -> nat -> Response) returns (entry: ProgramData)
    ensures entry == ProgramEntry(program, source)
  {
    var programName := if program.name != "" then program.name else "Unknown Program";
    var org: Option<Org> := None;
    var disbursedCents, disbursementCount := 0, 0;
    var error: Option<FetchError> := None;
    if program.hcbUrl != "" {
      org := Some(OrgFromBudgetUrl(program.hcbUrl));
      if org.value.eventId != "" {
        var result := GetTotalDisbursementsFromHq(source(org.value.eventId));
        match result
        case Success(s) =>
          disbursedCents, disbursementCount := s.totalAmountCents, s.disbursementCount;
        case Failure(e) =>
          error := Some(e);
      }
    }
    var transfer := ComputeTransfer(program.targetCents, disbursedCents);
    entry := ProgramData(program, programName, org, disbursedCents, disbursementCount, transfer, error);
  }

  /** The review loop of `processProgramPayouts`, run until every program
      is decided or the operator's input ends. */
  method ReviewPrograms(programData: seq<ProgramData>, input: seq<Command>)
    returns (approved: seq<ProgramData>, rejected: seq<ProgramData>, currentIndex: nat)
    ensures var t := ReviewAll(programData, AutoSkipped, input);
      approved == t.approved && rejected == t.rejected && currentIndex == t.index
  {
    approved, rejected, currentIndex := [], [], 0;
    var pending := input;
    while currentIndex < |programData|
      invariant currentIndex <= |programData|
      invariant Run(programData, AutoSkipped, Review(currentIndex, approved, rejected, pending)) ==
                ReviewAll(programData, AutoSkipped, input)
      decreases |pending|, |programData| - currentIndex
    {
      ghost var st := Review(currentIndex, approved, rejected, pending);
      var data := programData[currentIndex];
      if AutoSkipped(data) {
        rejected := rejected + [data];
        currentIndex := currentIndex + 1;
        RunStep(programData, AutoSkipped, st);
        continue;
      }
      if pending == [] {
        break;
      }
      var choice := pending[0];
      pending := pending[1..];
      ghost var next := Apply(programData, st, choice).(input := pending);
      RunStep(programData, AutoSkipped, st);
      match choice
      case Help =>
      case Approve =>
        approved := approved + [data];
        currentIndex := currentIndex + 1;
      case Reject =>
        rejected := rejected + [data];
        currentIndex := currentIndex + 1;
      case ApproveRest =>
        approved := PushRemaining(approved, programData, currentIndex);
        currentIndex := |programData|;
      case RejectRest =>
        rejected := PushRemaining(rejected, programData, currentIndex);
        currentIndex := |programData|;
      assert Review(currentIndex, approved, rejected, pending) == next;
    }
  }

  /** `approved.reduce((sum, data) => sum + data.transferAmount, 0)`, in
      cents. */
  function TotalToTransfer(approved: seq<ProgramData>): (total: nat)
    ensures forall k :: 0 <= k < |approved| ==> approved[k].transfer.transferCents <= total
  {
    if approved == [] then 0
    else approved[0].transfer.transferCents + TotalToTransfer(approved[1..])
  }

  /** The pre-filled payment page `openTransferTab` opens: a disbursement
      from HQ (`source_event_id=hq`) to `eventId` of `amountCents`. */
  datatype PaymentLink = PaymentLink(eventId: string, amountCents: nat)

  const NewDisbursementPage: string := "https://hcb.hackclub.com/disbursements/new"

  /** The link's address up to its `message` parameter. */
  function LinkUrl(link: PaymentLink): string
  {
    NewDisbursementPage + "?source_event_id=hq&event_id=" + link.eventId +
    "&amount=" + Decimal(link.amountCents)
  }

  /** The address names HQ as the source and the program's event id as the
      recipient, and its `amount` parameter, a run of digits up to the end,
      reads back as exactly the amount in cents. */
  lemma LinkUrlCarriesAmount(link: PaymentLink)
    ensures var head := NewDisbursementPage + "?source_event_id=hq&event_id=" + link.eventId + "&amount=";
      var url := LinkUrl(link);
      && |head| < |url| && url[..|head|] == head
      && (forall k :: |head| <= k < |url| ==> '0' <= url[k] <= '9')
      && ParseDecimal(url[|head|..]) == link.amountCents
  {
    var head := NewDisbursementPage + "?source_event_id=hq&event_id=" + link.eventId + "&amount=";
    var digits := Decimal(link.amountCents);
    assert LinkUrl(link) == head + digits;
    assert (head + digits)[|head|..] == digits;
    DecimalRoundTrip(link.amountCents);
  }

  /** What the tab-opening loop does with one approved program. */
  datatype TabOutcome =
    | Opened(link: PaymentLink)
    | NoTransferNeeded
    | NoEventId
    | NoOrgFound

  /** A tab is opened exactly for a program with an org, an event id and a
      positive transfer, for the transfer in whole cents; every other
      approved program is reported with its reason. */
  function TabFor(d: ProgramData): (o: TabOutcome)
    ensures o.Opened? <==> d.org.Some? && d.org.value.eventId != "" && d.transfer.transferCents > 0
    ensures o.Opened? ==> o.link.eventId == d.org.value.eventId &&
                          o.link.amountCents == d.transfer.transferCents > 0
    ensures o == NoTransferNeeded <==> d.transfer.transferCents == 0
  {
    if d.org.Some? && d.org.value.eventId != "" && d.transfer.transferCents > 0 then
      Opened(PaymentLink(d.org.value.eventId, d.transfer.transferCents))
    else if d.transfer.transferCents == 0 then NoTransferNeeded
    else if d.org.Some? then NoEventId
    else NoOrgFound
  }

  /** The tab-opening loop: one outcome per approved program, in
      approved order. */
  method OpenTransferTabs(approved: seq<ProgramData>) returns (outcomes: seq<TabOutcome>)
    ensures |outcomes| == |approved|
    ensures forall k :: 0 <= k < |approved| ==> outcomes[k] == TabFor(approved[k])
  {
    outcomes := [];
    for k := 0 to |approved|
      invariant |outcomes| == k
      invariant forall j :: 0 <= j < k ==> outcomes[j] == TabFor(approved[j])
    {
      outcomes := outcomes + [TabFor(approved[k])];
    }
  }

  function OpenedAmount(o: TabOutcome): nat
  {
    if o.Opened? then o.link.amountCents else 0
  }

  /** The links opened never ask for more than the announced total; they
      ask for all of it when every approved program has an event id. */
  lemma {:induction false} OpenedWithinTotal(approved: seq<ProgramData>)
    ensures Sum(seq(|approved|, k requires 0 <= k < |approved| => OpenedAmount(TabFor(approved[k]))))
            <= TotalToTransfer(approved)
    ensures (forall k :: 0 <= k < |approved| ==> approved[k].org.Some? && approved[k].org.value.eventId != "") ==>
            Sum(seq(|approved|, k requires 0 <= k < |approved| => OpenedAmount(TabFor(approved[k]))))
            == TotalToTransfer(approved)
  {
    if approved != [] {
      OpenedWithinTotal(approved[1..]);
      var amounts := seq(|approved|, k requires 0 <= k < |approved| => OpenedAmount(TabFor(approved[k])));
      assert amounts[1..] == seq(|approved| - 1, k requires 0 <= k < |approved| - 1 => OpenedAmount(TabFor(approved[1..][k])));
    }
  }

  function Sum(xs: seq<nat>): nat
  {
    if xs == [] then 0 else xs[0] + Sum(xs[1..])
  }

  /** What a finished run reports. */
  datatype PayoutSummary = PayoutSummary(
    approved: seq<ProgramData>,
    rejected: seq<ProgramData>,
    totalToTransferCents: nat,
    tabs: seq<TabOutcome>)

  /** `processProgramPayouts`: gather the data, review it, then total the
      approved transfers and open their payment pages. `None` when the
      operator's input ends before every program is decided. */
  method ProcessProgramPayouts(programs: seq<Program>, source: string -> nat -> Response, input: seq<Command>)
    returns (summary: Option<PayoutSummary>)
    ensures var data := ProgramEntries(programs, source);
      var t := ReviewAll(data, AutoSkipped, input);
      && (summary.Some? <==> t.index == |programs|)
      && (summary.Some? ==>
            && summary.value.approved == t.approved
            && summary.value.rejected == t.rejected
            && summary.value.totalToTransferCents == TotalToTransfer(t.approved)
            && |summary.value.tabs| == |t.approved|
            && forall k :: 0 <= k < |t.approved| ==> summary.value.tabs[k] == TabFor(t.approved[k]))
  {
    var programData := CollectProgramData(programs, source);
    var approved, rejected, currentIndex := ReviewPrograms(programData, input);
    if currentIndex < |programData| {
      return None;
    }
    var totalToTransfer := TotalToTransfer(approved);
    var tabs := OpenTransferTabs(approved);
    summary := Some(PayoutSummary(approved, rejected, totalToTransfer, tabs));
  }

  /** A finished payout run decides every program exactly once: the
      approved and rejected lists split the programs in their order. */
  lemma PayoutPartition(programs: seq<Program>, source: string -> nat -> Response, input: seq<Command>)
    ensures var data := ProgramEntries(programs, source);
      var t := ReviewAll(data, AutoSkipped, input);
      t.index == |data| ==>
        Interleaving(data, t.approved, t.rejected) &&
        multiset(t.approved) + multiset(t.rejected) == multiset(data)
  {
    var data := ProgramEntries(programs, source);
    ReviewPartitions(data, AutoSkipped, input);
  }
}
