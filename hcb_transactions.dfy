/** The records and response envelopes of the HCB transactions API as the
    client in `src/clients/hcb.js` reads them. */
module HcbTransactions {
  import opened Wrappers

  type TxId = string

  datatype Label = Label(name: string)

  /** One raw transaction. Fields the source reads with loose checks are
      modelled by what those checks can see:
      - `fromEventId` / `fromOrganizationId` are compared with the number 183
        by strict equality, so a value that is not a number is `None`;
      - `amountCents` is `None` when the field is missing; both `None` and
        `Some(0)` are falsy and fall through to the `amount` fallback;
      - `fallbackCents` is `Math.round((tx.amount || 0) * 100)`, given as an
        integer. */
  datatype Transaction = Transaction(
    id: TxId,
    fromEventId: Option<int>,
    fromOrganizationId: Option<int>,
    memo: Option<string>,
    labels: Option<seq<Label>>,
    amountCents: Option<int>,
    fallbackCents: int)

  /** The decoded JSON body of one page. `JsonObject` carries the fields the
      client looks at: `data` and `transactions` when they hold arrays
      (`None` when missing or not an array) and a numeric `total_count`. */
  datatype Body =
    | JsonArray(items: seq<Transaction>)
    | JsonObject(data: Option<seq<Transaction>>, totalCount: Option<int>,
                 transactions: Option<seq<Transaction>>)
    | OtherJson

  datatype Response = Response(status: int, body: Body)

  /** HTTP error of one page request: `${status} - ${statusText}`. */
  datatype FetchError = HttpError(status: int)

  /** `response.ok`. */
  predicate IsOk(status: int)
  {
    200 <= status <= 299
  }

  const BatchSize: nat := 1000

  const HqEventId: int := 183

  /** The transactions of one page: the `data` array first, then a bare
      array, then the `transactions` array, otherwise none. */
  function PageItems(b: Body): (r: seq<Transaction>)
    ensures b.JsonArray? ==> r == b.items
    ensures b.JsonObject? && b.data.Some? ==> r == b.data.value
    ensures b.JsonObject? && b.data.None? && b.transactions.Some? ==> r == b.transactions.value
    ensures r != [] ==> b.JsonArray? || (b.JsonObject? && (b.data.Some? || b.transactions.Some?))
  {
    match b
    case JsonArray(items) => items
    case JsonObject(data, _, transactions) =>
      if data.Some? then data.value
      else if transactions.Some? then transactions.value
      else []
    case OtherJson => []
  }

  /** The total count announced by the first page:
      `total_count || firstTransactions.length` for the `data` shape, the
      page length for the other shapes, 0 for an unrecognised body. */
  function TotalCount(b: Body): (n: int)
    ensures b.JsonObject? && b.data.Some? && b.totalCount.Some? && b.totalCount.value != 0 ==>
      n == b.totalCount.value
    ensures !(b.JsonObject? && b.data.Some? && b.totalCount.Some? && b.totalCount.value != 0) ==>
      n == |PageItems(b)|
  {
    match b
    case JsonObject(Some(data), Some(c), _) => if c != 0 then c else |data|
    case _ => |PageItems(b)|
  }
}
