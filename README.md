# grant-gun reconciliation and approval core, in Dafny

grant-gun is a command-line tool that pays out Hack Club grants and program
budgets from HQ's HCB account. This project models the logic between the two
external services and the operator. The HCB client reads an organisation's
transactions page by page, deduplicates them by id, keeps the disbursements
sent by HQ (event 183) that are not labelled `no-grant-calc`, and sums them in
integer cents. The two payout workflows work out what is still owed and walk
the operator through an approve/reject review. They then total the approved
transfers and open a pre-filled HCB disbursement page for each of them.

Modules, one per source concern:

- `HcbTransactions` (hcb_transactions.dfy): raw transactions, the three
  response envelopes, `response.ok`, the batch size and HQ's event id.
- `HcbPager` (hcb_pager.dfy): `getOrgTransactions`. The network is a function
  from offset to response. The imperative method is proved against the
  `OrgTransactions` and `RequestedOffsets` functions.
- `HcbDedup` (hcb_dedup.dfy): the `Map`-based deduplication, as a loop over a
  key list and a map. It is proved equal to `Dedup`, whose properties are
  lemmas.
- `HcbDisbursements` (hcb_disbursements.dfy): the HQ filter, the cents sum,
  `getTotalDisbursementsFromHQ` and `getOrgFromBudgetUrl`.
- `Approval` (approval.dfy): the review state machine both workflows share.
  The operator's answers are a sequence of canonical commands.
- `ProgramPayouts` (program_payouts.dfy): `processProgramPayouts` and
  `openTransferTab`.
- `GrantApprovals` (grant_approvals.dfy): the `run` action after
  authentication, and `processGrantApprovals`.
- `Wrappers`, `Seqs` and `JsText`: `Option`/`Result`, an order-keeping filter,
  and the JavaScript string operations the source relies on. These are
  `includes`, `replace` with a string pattern, `split('/').pop()`, `trim()`,
  and integer-to-decimal rendering.

Each loop of the source is a `method` with a loop, proved equal to a
specification function. The properties are stated as lemmas about those
functions.

Modelling choices:

- Money is integer cents throughout.
- A missing string field is the empty string, which is as falsy as a missing
  one.
- `null` and `undefined` are `None`.
- The network, the disbursement lookup and the operator's input are
  parameters.

Three behaviours of the code that the model keeps as written:

- A transaction is attributed to HQ only by `from_event_id`,
  `from_organization_id` or its memo (src/clients/hcb.js:142-144). There is
  no attribution by organisation slug.
- Deduplication runs before the HQ filter (src/clients/hcb.js:131-146).
- index.js opens a payment page without checking the event id
  (index.js:173-174).

## Model

| member | source | states |
|---|---|---|
| HcbTransactions.PageItems | src/clients/hcb.js:85-92 | A page's transactions are the `data` array if present, else a bare array, else the `transactions` array, else none. |
| HcbTransactions.TotalCount | src/clients/hcb.js:37-49 | For the `data` shape with a nonzero `total_count`, the announced total is that count. For every other body it is the page's length. |
| HcbPager.OffsetsFromShape | src/clients/hcb.js:60-62 | From a start offset, the loop produces `start + 1000*k` for k = 0.. while below the total. There are ⌈(total−start)/1000⌉ of them. |
| HcbPager.RemainingOffsetsShape | src/clients/hcb.js:58-62 | The remaining offsets are exactly 1000, 2000, … They are strictly increasing and each is below the total. There are ⌈total/1000⌉−1 of them, and one more batch would reach the total. |
| HcbPager.BatchOffsets | src/clients/hcb.js:59-62 | The `remainingBatches` loop builds exactly the remaining offsets. |
| HcbPager.FetchBatches | src/clients/hcb.js:67-95 | Every remaining offset is requested once, in order. The outcome is the pages in offset order, or the first failing page's HTTP error. |
| HcbPager.FetchPagesAllOrNothing | src/clients/hcb.js:79-81 | Fetching the remaining pages succeeds iff every page's status is ok. The k-th page is then the transactions at the k-th offset. |
| HcbPager.GetOrgTransactions | src/clients/hcb.js:11-104 | The method returns `OrgTransactions(fetch)` and requests exactly `RequestedOffsets(fetch)`, in that order. |
| HcbPager.SinglePage | src/clients/hcb.js:53-56 | If the first page announces at most 1000 transactions, it is the result as it is, and only offset 0 is requested. |
| HcbPager.AllPagesOrNothing | src/clients/hcb.js:30-32 | A result is returned iff the first page and every remaining page succeeded. Any failing page aborts the whole fetch, with no partial result. |
| HcbPager.PagesInOffsetOrder | src/clients/hcb.js:95-96 | On success with more than one batch, the result is the first page followed by the pages at 1000, 2000, … in offset order. |
| HcbPager.FlattenLayout | src/clients/hcb.js:96 | `flat()` keeps each page intact, right after the pages before it. Its length is the sum of the page lengths. |
| HcbDedup.FirstIds | src/clients/hcb.js:131-136 | The map's keys are each input id exactly once, with no duplicates. |
| HcbDedup.LastIndex | src/clients/hcb.js:132-134 | The value `set` last for an id comes from its last occurrence. |
| HcbDedup.FirstIndex | src/clients/hcb.js:132-133 | The index at which an id is first `set`, when the map's key is created: the id is there and nowhere before. |
| HcbDedup.FirstIdsOrder | src/clients/hcb.js:131-136 | The map's keys are listed in strictly increasing order of their ids' first occurrence in the input. |
| HcbDedup.DedupSpec | src/clients/hcb.js:131-136 | Deduplicated ids are pairwise distinct and exactly the input ids. They are in strictly increasing order of first occurrence in the input. Each value is its id's last occurrence, and there are at most as many as inputs. |
| HcbDedup.Deduplicate | src/clients/hcb.js:131-136 | The `txMap` loop and `Array.from(txMap.values())` compute `Dedup(transactions)`. |
| HcbDedup.DedupOfDistinct | src/clients/hcb.js:131-136 | Transactions whose ids are already distinct come out unchanged. |
| HcbDedup.DedupIdempotent | src/clients/hcb.js:131-136 | Deduplicating twice gives the same result as deduplicating once. |
| HcbDedup.DedupDoubled | src/clients/hcb.js:130-136 | Reading the same transactions twice, as from overlapping pages, deduplicates to the result of reading them once. |
| HcbDedup.FirstIdsOfKnown | src/clients/hcb.js:131-136 | Adding transactions whose ids were already seen does not change the key order. |
| JsText.Includes | src/clients/hcb.js:144 | `memo.includes('HQ')` holds iff the memo contains "HQ" at some position (case-sensitive). |
| HcbDisbursements.IsHqDisbursement | src/clients/hcb.js:140-146 | A transaction is kept iff it is attributed to HQ (event id 183, org id 183, or "HQ" somewhere in the memo) and no label is named `no-grant-calc`. Exclusion wins over attribution, and a missing `labels` never excludes. |
| HcbDisbursements.HqDisbursements | src/clients/hcb.js:140-146 | Every kept transaction passes the predicate, and every passing one is kept. Each passing transaction occurs as often as in the input, and a failing one not at all. |
| HcbDisbursements.HqDisbursementsInOrder | src/clients/hcb.js:140-146 | Filtering a concatenation concatenates the filtered parts, and a single transaction is kept iff it passes. So the kept transactions stay in input order. |
| HcbDisbursements.HqDisbursementsDistinct | src/clients/hcb.js:136-146 | Filtering deduplicated transactions keeps their ids distinct. |
| HcbDisbursements.TotalCents | src/clients/hcb.js:148-152 | The sum of absolute cents is non-negative and at least each term. A zero or missing `amount_cents` falls back to the rounded `amount`. |
| HcbDisbursements.TotalCentsAppend | src/clients/hcb.js:149-152 | The total of a concatenation is the sum of the totals. |
| HcbDisbursements.TotalCentsPermutation | src/clients/hcb.js:149-152 | The total does not depend on the order of the transactions. |
| HcbDisbursements.FilteredTotalBounded | src/clients/hcb.js:140-152 | The HQ total is at most the total of all the transactions it was filtered from. |
| HcbDisbursements.GetTotalDisbursementsFromHq | src/clients/hcb.js:123-158 | The method computes fetch, then dedup, then filter, then sum. It fails iff fetching the transactions failed. |
| HcbDisbursements.SummaryFacts | src/clients/hcb.js:154-158 | Summary invariants: `totalAmountCents` = Σ\|cents\| over `disbursements`, between 0 and the total of the unique transactions. `disbursementCount` is their number, at most the unique count. Ids are distinct and every one is an HQ disbursement. |
| JsText.LastSegment | src/clients/hcb.js:109-110 | `split('/').pop()` is the suffix after the last `/`. It contains no `/`, and it is the whole string when there is no `/`. |
| HcbDisbursements.OrgFromBudgetUrl | src/clients/hcb.js:108-115 | `eventId` and `slug` are both the last path segment, which contains no `/`. It is empty when the URL ends in `/`. |
| HcbDisbursements.BudgetUrlShape | src/clients/hcb.js:109-110 | The slug is the whole URL, or exactly what follows the URL's last `/`. |
| JsText.ReplaceFirstSpec | src/clients/hcb.js:116 | `replace` with a string pattern leaves a string with no match unchanged. Otherwise it substitutes the leftmost match only. |
| HcbDisbursements.BudgetSlugName | src/clients/hcb.js:116 | For the slug `ysws-budget-<rest>`, the name is `<rest>` with its first `-` turned into a space, and `<rest>` itself when it has no `-`. |
| Approval.Apply | program-payouts.js:139-193 | y appends the current candidate to approved and n appends it to rejected, each advancing the index by exactly one. a appends candidates [i, len) to approved and q appends them to rejected, both setting the index to len. ? changes nothing. The order-preserving split of the decided prefix is kept. |
| Approval.Step | program-payouts.js:87-106 | A flagged candidate is rejected without a prompt or any input, and the index advances by one. Any other candidate consumes one command. |
| Approval.Run | program-payouts.js:87-194 | The loop ends with every candidate decided, or when the input runs out at a candidate that needs a prompt. It keeps approved/rejected an order-preserving split of the decided candidates. |
| Approval.PushRemaining | program-payouts.js:171-179 | The inner loop of a and q appends candidates [i, len) to the list, in order. |
| Approval.ReviewPartitions | program-payouts.js:87-194 | On termination, approved ++ rejected holds every candidate exactly once, each list in the original relative order. Otherwise the review stopped only for lack of input. |
| Approval.InterleavingCounts | program-payouts.js:87-194 | An order-preserving split accounts for every candidate exactly once, by count and by multiset. |
| ProgramPayouts.ComputeTransfer | program-payouts.js:65-69 | transfer − overDisbursed = target − disbursed, with at most one of them nonzero. So transfer = max(0, target − disbursed). |
| ProgramPayouts.TransferUnique | program-payouts.js:66-69 | These two facts determine the pair. Both are zero iff target equals disbursed. |
| ProgramPayouts.ProgramEntryIsolation | program-payouts.js:49-63 | With no HCB URL or an empty event id there is no fetch: no error and zero disbursements, whatever the network. Otherwise a successful fetch of that event id supplies the disbursed cents and count with no error, and a failed one is recorded as the error. An error leaves zero disbursements, so the whole target is owed. The org is the one parsed from the URL. |
| ProgramPayouts.FailedLookupIsOffered | program-payouts.js:91-106 | A program whose lookup failed keeps its org, so it is not auto-skipped. With a positive target it is offered for the whole target. |
| ProgramPayouts.ProgramEntries | program-payouts.js:43-83 | The first loop records one entry per program. |
| ProgramPayouts.ProgramEntriesAt | program-payouts.js:43-83 | The i-th entry is computed from the i-th program alone. One failing lookup does not affect the others. |
| ProgramPayouts.CollectProgramData | program-payouts.js:41-83 | The `programData` loop computes `ProgramEntries(programs, source)`. |
| ProgramPayouts.LookUpProgram | program-payouts.js:44-82 | One iteration covers the URL parse, the fetch only for a non-empty event id, the `catch` recording the error, and the transfer in cents. |
| ProgramPayouts.ReviewPrograms | program-payouts.js:87-194 | The `while` loop over `currentIndex` produces the approved list, the rejected list and the final index of the review with auto-skip. |
| ProgramPayouts.TotalToTransfer | program-payouts.js:202 | The summary total is the sum of the approved transfers, at least each of them. |
| ProgramPayouts.TabFor | program-payouts.js:207-215 | A tab is opened iff the program has an org, an event id and transfer > 0, for that event id and the transfer in cents. "No transfer needed" is reported iff the transfer is 0. |
| ProgramPayouts.LinkUrlCarriesAmount | program-payouts.js:17-18 | The URL names `source_event_id=hq` and the event id. Its `amount` is digits only and reads back as exactly the transfer in cents. |
| ProgramPayouts.OpenTransferTabs | program-payouts.js:207-215 | The tab loop produces one outcome per approved program, in approved order. |
| ProgramPayouts.OpenedWithinTotal | program-payouts.js:201-215 | The opened links ask for at most the announced total, and for all of it when every approved program has an event id. |
| ProgramPayouts.ProcessProgramPayouts | program-payouts.js:31-215 | A finished run reports the review's lists, the total of the approved transfers, and one tab outcome per approved program. A run whose input ends first reports nothing. |
| ProgramPayouts.PayoutPartition | program-payouts.js:87-194 | A finished payout review splits the program entries into approved and rejected, each kept in order, every entry exactly once. |
| JsText.TrimBlank | index.js:212 | `trim()` yields "" iff every character is JavaScript whitespace. |
| GrantApprovals.HasBudgetFundIff | index.js:210-213 | A record is kept iff its `HCB Budget Fund` has a non-whitespace character. |
| GrantApprovals.ValidRecords | index.js:210-213 | Every kept record has a budget fund, and every record with one is kept. Each occurs as often as in the input, and a record without one not at all. |
| GrantApprovals.ValidRecordsInOrder | index.js:210-213 | Filtering a concatenation concatenates the filtered parts, and a single record is kept iff it has a budget fund. So the kept records, and the review, keep the records' order. |
| GrantApprovals.GrantEntryIsolation | index.js:252-262 | A failed lookup still yields an entry with no org (null event id), zero disbursements and the error. Its transfer is the whole weighted amount and its name is the record's name or `Unknown`. An entry has an org iff no error was recorded. |
| GrantApprovals.GrantEntryLookup | index.js:236-251 | The org is the one parsed from the budget URL, and its event id is the URL's last segment. A non-empty id was looked up successfully, and the entry's totals are that lookup's cents figures. |
| GrantApprovals.AsWrittenReviewThrows | index.js:48-50 | As written, displaying a grant with `disbursementData.totalAmount.toFixed(2)` throws iff its event id is non-empty and its lookup succeeded. |
| GrantApprovals.DisplayNameSpec | index.js:42 | Without a slug, the shown name is the entry's name. For the slug `ysws-budget-<rest>`, it is `<rest>`. |
| GrantApprovals.GrantEntries | index.js:229-263 | The loop of `run` records one entry per kept record. |
| GrantApprovals.GrantEntriesAt | index.js:229-263 | The i-th entry depends only on the i-th record. One failing lookup leaves every other entry as it would be. |
| GrantApprovals.CollectGrantData | index.js:227-263 | The `orgData` loop computes `GrantEntries(validRecords, lookup)`. |
| GrantApprovals.LookUpGrant | index.js:230-262 | One iteration covers the parse, the lookup only for a non-empty event id, and the `catch` entry. |
| GrantApprovals.ReviewGrants | index.js:39-150 | The `while` loop over `currentIndex` produces the lists and final index of the review with no auto-skip. |
| GrantApprovals.EveryGrantPrompted | index.js:39-89 | No grant is decided without a command. An unfinished review stopped because the input ran out, and with no input nothing is decided. |
| GrantApprovals.RejectThenApproveRest | index.js:104-134 | For three grants and the answers `n`, `a`, the first is rejected and the other two are approved in order. |
| GrantApprovals.GrantTotal | index.js:158-164 | The displayed total Σ max(0, transfer) over the approved grants is ≥ 0 and at least each grant's transfer. |
| GrantApprovals.GrantLinks | index.js:169-175 | The `transferAmount > 0` guard lets through at most one link per approved grant, and every link asks for a positive amount. |
| GrantApprovals.GrantLinksSpec | index.js:169-176 | There is exactly one link for each approved grant with transfer > 0, in approved order. Each is for that grant's event id, unchecked, and its transfer. |
| GrantApprovals.LinksMatchTotal | index.js:157-176 | Together, the links opened ask for exactly the displayed total. |
| GrantApprovals.FailedLookupStillLinked | index.js:169-176 | An approved grant whose lookup failed still gets a link, with a null event id, for its whole weighted amount. |
| GrantApprovals.OpenDisbursementTabs | index.js:169-176 | The tab loop opens exactly `GrantLinks(approved)`, in approved order. |
| GrantApprovals.ProcessGrantApprovals | index.js:31-178 | A finished review yields its lists, the clamped total and the links. A review whose input ends first yields nothing. |
| GrantApprovals.RunGrantWorkflow | index.js:205-268 | With no record having a budget fund, `run` stops before any lookup. Otherwise it collects one entry per kept record, and finishes iff the review decides every grant, with the summary above. |
| GrantApprovals.GrantPartition | index.js:39-150 | A finished grant review splits the grants into approved and rejected, each kept in order, every grant exactly once. |

## Left out

- Floating-point dollars. `weightedTotal * 85`, `Math.round(... * 100)`, `parseFloat(formattedAmount)`, `toFixed` and `(tx.amount || 0) * 100` are not modelled. Targets, weighted amounts and the `amount` fallback are given as integer cents.
- ProgramPayouts.LinkUrl and GrantApprovals.GrantLink: the `message` parameter (`… weighted grants`, from `transferAmount / 85`) is left out, because it is floating-point text.
- `Program` and `GrantRecord` receive their amounts in cents, so the `|| 0` defaults, `Number(...)` and the string `formattedAmount` are not modelled.
- Console output, chalk colours, the per-program skip reasons (only `TabFor`'s reasons are kept), and the transfer summary printed after the tabs.
- The `inquirer` prompt and its validation. The operator's answers are a sequence of canonical `Command`s, and anything else is rejected by the validation.
- HcbPager.GetOrgTransactions: the `type` and `limit` query parameters and the organisation URL are left out. `fetch` already stands for one organisation's disbursement endpoint.
- HcbPager.GetOrgTransactions: the remaining pages are requested one after another rather than with `Promise.all`. The error reported is the first failing page in offset order, not the first to fail in time. The result on success is the same.
- JSON decoding failures, a non-numeric `total_count`, and error message texts (`Failed to get …: …`). A failed page is its HTTP status.
- Transaction ids are strings. An `undefined` id, which a `Map` also keys, is not modelled.
- ProgramPayouts.ProcessProgramPayouts and GrantApprovals.ProcessGrantApprovals: when the input runs out, the model stops and reports no summary, where the source would wait for the next answer.
- `open()`, and what happens when the browser cannot be opened. An opened tab is recorded as a `TabOutcome` or `GrantLink`.
- Authentication (OAuth and its callback server), the Airtable client and the record fetch, commander and `process.exit`. These are I/O outside the core. The Airtable records arrive as a parameter.
- GrantApprovals.GrantEntry takes the disbursement lookup as a function from event id to totals or an error message. The composition with `getTotalDisbursementsFromHQ` is modelled for programs (`ProgramEntry`), not repeated here.
- GrantApprovals.DisplayNameSpec states the shown name only for slugs that are absent or start with `ysws-budget-`. Other slugs follow `ReplaceFirstSpec`.

## Findings

| source | as written | input that shows it | evidently intended | confidence | as-written member | corrected member |
|---|---|---|---|---|---|---|
| index.js:41-49 | `processGrantApprovals` reads `disbursementData.totalAmount`, but `getTotalDisbursementsFromHQ` returns `totalAmountCents` (src/clients/hcb.js:154-158). After a successful lookup the field is undefined. So when the review displays such a grant, `.toFixed(2)` at line 49 throws and the run ends. A grant decided by an earlier `a` or `q` is never displayed. Its transfer (lines 116-117, 161, 170) is NaN instead, so the total prints `$NaN` and no page opens for it (`NaN > 0` is false). | A record with budget fund `https://hcb.hackclub.com/ysws-budget-x`, where the lookup for `ysws-budget-x` succeeds. | The entry carries the lookup's total (in cents), and transfers and totals are computed from it. | not executed | GrantApprovals.AsWrittenReviewThrows | GrantApprovals.GrantEntryLookup |
