/** The transaction classifier: decides which scoring rule a successful
    transaction falls under and which (address, points) credits it yields.
    A failed transaction yields none; a fixed-point action yields one credit to
    its sender; a `con_usdc.mint` bridge yields at most one credit to the mint's
    destination; any other transaction yields one credit per scoring swap event
    on pair 1, to that event's signer. */
module Classifier {
  import opened Records
  import opened Points

  /** One contribution to the score table. */
  datatype Credit = Credit(addr: string, points: int)

  const FixedContract: string := "con_name_service_final"
  const FixedFunction: string := "mint_name"

  /** `FIXED_ACTIONS`: "contract|function" keys to fixed point values. */
  const FixedActions: map<string, int> := map["con_name_service_final|mint_name" := 5]

  /** The lookup key built from a transaction's contract and function. */
  function FixedKey(contract: string, fn: string): string {
    contract + "|" + fn
  }

  /** The JavaScript key of the one fixed-point rule. */
  const NameMintKey: string := "con_name_service_final|mint_name"

  /** The only (contract, function) pair with a fixed-point rule is the XNS
      name mint: neither half of the rule's key holds a '|', so the key splits
      in one way only. */
  lemma FixedKeyMatches(contract: string, fn: string)
    ensures FixedKey(contract, fn) in FixedActions <==>
              contract == FixedContract && fn == FixedFunction
  {
    assert FixedActions.Keys == {NameMintKey};
    var k := FixedKey(contract, fn);
    if k == NameMintKey {
      assert NameMintKey == FixedContract + "|" + FixedFunction;
      assert '|' !in FixedContract && '|' !in FixedFunction;
      var n := |contract|;
      assert k[n] == '|';
      if n < |FixedContract| {
        assert false;
      } else if n > |FixedContract| {
        assert false;
      }
      assert contract == k[..22];
      assert fn == k[23..];
    }
  }

  /** The fixed points of a transaction's (contract, function), if it has a rule. */
  function FixedPoints(contract: string, fn: string): (pts: Option<int>)
    ensures pts.Some? <==> contract == FixedContract && fn == FixedFunction
    ensures pts.Some? ==> pts.value == 5
  {
    FixedKeyMatches(contract, fn);
    var key := FixedKey(contract, fn);
    if key in FixedActions then Some(FixedActions[key]) else None
  }

  /** Whether an event is a swap on pair 1 of `con_pairs`. */
  predicate IsPairOneSwap(e: Event) {
    e.contract == "con_pairs" && e.pair == Some("1") && e.event == "Swap"
  }

  /** `amount0In + toUsdcFromCurrency(amount1In)`, NaN (None) when either
      amount cannot be read. */
  function SwapUsdcEq(e: Event): (eq: Option<real>)
    ensures eq.Some? <==> !e.amount0In.Unparsable? && !e.amount1In.Unparsable?
    ensures eq.Some? ==> 100.0 * eq.value == 100.0 * Num(e.amount0In) + Num(e.amount1In)
  {
    match (ParseAmount(e.amount0In), ParseAmount(e.amount1In))
    case (Some(a0), Some(a1)) => Some(a0 + ToUsdcFromCurrency(a1))
    case _ => None
  }

  /** A missing amount counts as an explicit zero. */
  lemma MissingAmountIsZero(e: Event)
    ensures e.amount0In.Absent? ==> SwapUsdcEq(e.(amount0In := Parsed(0.0))) == SwapUsdcEq(e)
    ensures e.amount1In.Absent? ==> SwapUsdcEq(e.(amount1In := Parsed(0.0))) == SwapUsdcEq(e)
  {
  }

  /** The credit one event yields: a pair-1 swap with a positive USDC
      equivalent credits its signer with the swap points. */
  function EventCredit(e: Event): (c: Option<Credit>)
    ensures c.Some? <==> IsPairOneSwap(e) && Positive(SwapUsdcEq(e))
    ensures c.Some? ==> c.value.addr == e.signer
    ensures c.Some? ==> c.value.points == PointsForSwap(SwapUsdcEq(e).value)
    ensures c.Some? ==> 0 <= c.value.points <= SwapCap
  {
    if !IsPairOneSwap(e) then None
    else
      var eq := SwapUsdcEq(e);
      if Positive(eq) then Some(Credit(e.signer, PointsForSwap(eq.value))) else None
  }

  function OptionToSeq(c: Option<Credit>): seq<Credit> {
    if c.Some? then [c.value] else []
  }

  /** The credits of a sequence of events, in order. */
  function EventCredits(events: seq<Event>): seq<Credit> {
    if events == [] then []
    else EventCredits(events[..|events| - 1]) + OptionToSeq(EventCredit(events[|events| - 1]))
  }

  /** At most one credit per event, each within the swap cap and each to the
      signer of a pair-1 swap among the events. */
  lemma {:induction false} EventCreditsShape(events: seq<Event>)
    ensures |EventCredits(events)| <= |events|
    ensures forall c :: c in EventCredits(events) ==> 0 <= c.points <= SwapCap
    ensures forall c :: c in EventCredits(events) ==>
              exists e :: e in events && IsPairOneSwap(e) && e.signer == c.addr
  {
    if events != [] {
      var init := events[..|events| - 1];
      EventCreditsShape(init);
      assert forall e :: e in init ==> e in events;
    }
  }

  /** The bridge point credit of a `con_usdc.mint`: the mint's `to` address
      receives the bridge points when the amount is positive and `to` truthy. */
  function BridgeCredit(tx: Tx): (c: Option<Credit>)
    ensures c.Some? <==> Positive(ParseAmount(tx.amount)) && Truthy(tx.to)
    ensures c.Some? ==> c.value.addr == tx.to.value
    ensures c.Some? ==> c.value.points == PointsForBridge(ParseAmount(tx.amount).value)
    ensures c.Some? ==> 0 <= c.value.points <= BridgeCap
  {
    var minted := ParseAmount(tx.amount);
    if Positive(minted) && Truthy(tx.to) then Some(Credit(tx.to.value, PointsForBridge(minted.value)))
    else None
  }

  predicate IsBridgeMint(tx: Tx) {
    tx.contract == "con_usdc" && tx.fn == "mint"
  }

  /** The credits one transaction yields, following the early returns of the
      aggregation pass: failure, then a fixed action, then a bridge mint, and
      only otherwise its events. */
  function TxCredits(tx: Tx): seq<Credit> {
    if !tx.success then []
    else
      var fixed := FixedPoints(tx.contract, tx.fn);
      if fixed.Some? then [Credit(tx.sender, fixed.value)]
      else if IsBridgeMint(tx) then OptionToSeq(BridgeCredit(tx))
      else EventCredits(tx.events)
  }

  /** A failed transaction yields nothing; every credit is within [0, 50] and
      goes to the sender, the mint's `to` address or a pair-1 swap's signer. */
  lemma TxCreditsShape(tx: Tx)
    ensures !tx.success ==> TxCredits(tx) == []
    ensures forall c :: c in TxCredits(tx) ==> 0 <= c.points <= 50
    ensures forall c :: c in TxCredits(tx) ==>
              || c.addr == tx.sender
              || (Truthy(tx.to) && c.addr == tx.to.value)
              || exists e :: e in tx.events && IsPairOneSwap(e) && e.signer == c.addr
  {
    EventCreditsShape(tx.events);
  }

  /** The credits of a whole sequence of transactions, in processing order. */
  function AllCredits(txs: seq<Tx>): seq<Credit> {
    if txs == [] then []
    else AllCredits(txs[..|txs| - 1]) + TxCredits(txs[|txs| - 1])
  }

  /** Every credit of the pass lies within [0, 50]. */
  lemma {:induction false} AllCreditsBounded(txs: seq<Tx>)
    ensures forall c :: c in AllCredits(txs) ==> 0 <= c.points <= 50
  {
    if txs != [] {
      AllCreditsBounded(txs[..|txs| - 1]);
      TxCreditsShape(txs[|txs| - 1]);
    }
  }
}
