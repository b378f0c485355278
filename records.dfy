/** The already-decoded transaction records the scorer consumes: one record per
    GraphQL edge node, with the fields of its JSON content that the scoring
    rules read. */
module Records {

  datatype Option<+T> = None | Some(value: T)

  /** A numeric argument as it arrives in a record's JSON: missing, a value
      `parseFloat` reads as a number, or text it cannot read (NaN). */
  datatype Amount = Absent | Parsed(value: real) | Unparsable

  /** An event emitted while a transaction executed (`tx_result.events`);
      `pair` is `data_indexed.pair`, the amounts are `data.amount0In` (USDC)
      and `data.amount1In` (the native currency). */
  datatype Event = Event(
    contract: string,
    event: string,
    pair: Option<string>,
    signer: string,
    amount0In: Amount,
    amount1In: Amount)

  /** One transaction node: `amount` and `to` are `payload.kwargs.amount` and
      `payload.kwargs.to`; a record without `tx_result.events` has `events == []`. */
  datatype Tx = Tx(
    success: bool,
    contract: string,
    fn: string,
    sender: string,
    amount: Amount,
    to: Option<string>,
    events: seq<Event>)

  /** `parseFloat(field ?? "0")`: a missing field reads as zero, unreadable
      text as NaN, written here as None. */
  function ParseAmount(a: Amount): Option<real> {
    match a
    case Absent => Some(0.0)
    case Parsed(v) => Some(v)
    case Unparsable => None
  }

  /** The number a readable field stands for: a missing field is zero. */
  function Num(a: Amount): real {
    match a
    case Parsed(v) => v
    case _ => 0.0
  }

  /** `x > 0` on a parsed number; NaN compares false. */
  predicate Positive(x: Option<real>) {
    x.Some? && x.value > 0.0
  }

  /** JavaScript truthiness of an optional address: present and not empty. */
  predicate Truthy(addr: Option<string>) {
    addr.Some? && addr.value != ""
  }
}
