/** The aggregation pass of `buildLeaderboard`: every credit the classifier
    finds is added to a per-address score table.  `Leaderboard` is the
    functional specification (a fold over the credits in processing order),
    `BuildLeaderboard` the pass itself, with its two nested loops. */
module Aggregator {
  import opened Records
  import opened Points
  import opened Classifier

  /** address -> points; a key appears on its first contribution. */
  type Scores = map<string, int>

  /** The points already held by `addr`, zero for an absent key (`scores[addr] || 0`). */
  function Held(scores: Scores, addr: string): int {
    if addr in scores then scores[addr] else 0
  }

  /** `scores[addr] = (scores[addr] || 0) + pts`. */
  function AddPoints(scores: Scores, addr: string, pts: int): (r: Scores)
    ensures r.Keys == scores.Keys + {addr}
    ensures r[addr] == Held(scores, addr) + pts
    ensures forall a :: a in scores && a != addr ==> r[a] == scores[a]
  {
    scores[addr := Held(scores, addr) + pts]
  }

  /** `scores` after adding the credits `cs` one after another. */
  function TallyFrom(scores: Scores, cs: seq<Credit>): Scores {
    if cs == [] then scores
    else
      var last := cs[|cs| - 1];
      AddPoints(TallyFrom(scores, cs[..|cs| - 1]), last.addr, last.points)
  }

  /** The score table `buildLeaderboard` computes from the transactions `txs`. */
  function Leaderboard(txs: seq<Tx>): Scores {
    TallyFrom(map[], AllCredits(txs))
  }

  /** The total of the credits in `cs` that go to `addr`. */
  function SumFor(addr: string, cs: seq<Credit>): int {
    if cs == [] then 0
    else SumFor(addr, cs[..|cs| - 1]) + (if cs[|cs| - 1].addr == addr then cs[|cs| - 1].points else 0)
  }

  /** Whether some credit in `cs` goes to `addr`. */
  predicate Credited(addr: string, cs: seq<Credit>) {
    exists c :: c in cs && c.addr == addr
  }

  // ---------------------------------------------------------------------
  // The fold, credit by credit
  // ---------------------------------------------------------------------

  /** Folding a concatenation is folding its two parts in turn. */
  lemma {:induction false} TallyAppend(scores: Scores, a: seq<Credit>, b: seq<Credit>)
    ensures TallyFrom(scores, a + b) == TallyFrom(TallyFrom(scores, a), b)
  {
    if b == [] {
      assert a + b == a;
    } else {
      var init := b[..|b| - 1];
      assert (a + b)[..|a + b| - 1] == a + init;
      assert (a + b)[|a + b| - 1] == b[|b| - 1];
      TallyAppend(scores, a, init);
    }
  }

  lemma {:induction false} SumForAppend(addr: string, a: seq<Credit>, b: seq<Credit>)
    ensures SumFor(addr, a + b) == SumFor(addr, a) + SumFor(addr, b)
  {
    if b == [] {
      assert a + b == a;
    } else {
      var init := b[..|b| - 1];
      assert (a + b)[..|a + b| - 1] == a + init;
      assert (a + b)[|a + b| - 1] == b[|b| - 1];
      SumForAppend(addr, a, init);
    }
  }

  /** What the fold computes, address by address: an address is a key exactly
      when it was one before or some credit goes to it (a zero-point credit
      included), and its total is what it held plus all its credits. */
  lemma {:induction false} TallyAt(scores: Scores, cs: seq<Credit>, addr: string)
    ensures addr in TallyFrom(scores, cs) <==> addr in scores || Credited(addr, cs)
    ensures Held(TallyFrom(scores, cs), addr) == Held(scores, addr) + SumFor(addr, cs)
  {
    if cs != [] {
      var init := cs[..|cs| - 1];
      var last := cs[|cs| - 1];
      TallyAt(scores, init, addr);
      assert forall c :: c in init ==> c in cs;
      if Credited(addr, cs) && !Credited(addr, init) {
        var c :| c in cs && c.addr == addr;
        assert c == last;
      }
    }
  }

  /** Every address's final score is the sum of all its contributions over all
      transactions and events, and the addresses in the table are exactly those
      that received a contribution. */
  lemma LeaderboardTotals(txs: seq<Tx>, addr: string)
    ensures addr in Leaderboard(txs) <==> Credited(addr, AllCredits(txs))
    ensures addr in Leaderboard(txs) ==> Leaderboard(txs)[addr] == SumFor(addr, AllCredits(txs))
  {
    TallyAt(map[], AllCredits(txs), addr);
  }

  /** No credit is negative, so no total is. */
  lemma {:induction false} SumForNonNegative(addr: string, cs: seq<Credit>)
    requires forall c :: c in cs ==> c.points >= 0
    ensures SumFor(addr, cs) >= 0
  {
    if cs != [] {
      assert forall c :: c in cs[..|cs| - 1] ==> c in cs;
      SumForNonNegative(addr, cs[..|cs| - 1]);
    }
  }

  lemma LeaderboardNonNegative(txs: seq<Tx>, addr: string)
    requires addr in Leaderboard(txs)
    ensures Leaderboard(txs)[addr] >= 0
  {
    LeaderboardTotals(txs, addr);
    AllCreditsBounded(txs);
    SumForNonNegative(addr, AllCredits(txs));
  }

  // ---------------------------------------------------------------------
  // One transaction at a time
  // ---------------------------------------------------------------------

  lemma {:induction false} AllCreditsAppend(a: seq<Tx>, b: seq<Tx>)
    ensures AllCredits(a + b) == AllCredits(a) + AllCredits(b)
  {
    if b == [] {
      assert a + b == a;
    } else {
      var init, last := b[..|b| - 1], b[|b| - 1];
      assert (a + b)[..|a + b| - 1] == a + init;
      assert (a + b)[|a + b| - 1] == last;
      AllCreditsAppend(a, init);
      var ca, ci, cl := AllCredits(a), AllCredits(init), TxCredits(last);
      assert AllCredits(a + b) == ca + ci + cl;
      assert ca + ci + cl == ca + (ci + cl);
    }
  }

  /** Processing one more transaction folds its own credits into the table. */
  lemma LeaderboardAppend(txs: seq<Tx>, tx: Tx)
    ensures Leaderboard(txs + [tx]) == TallyFrom(Leaderboard(txs), TxCredits(tx))
  {
    assert (txs + [tx])[..|txs|] == txs;
    TallyAppend(map[], AllCredits(txs), TxCredits(tx));
  }

  /** A failed transaction leaves the table unchanged, whatever its contract,
      function, payload or events. */
  lemma FailedTxIgnored(txs: seq<Tx>, tx: Tx)
    requires !tx.success
    ensures Leaderboard(txs + [tx]) == Leaderboard(txs)
  {
    LeaderboardAppend(txs, tx);
  }

  /** A successful XNS name mint adds exactly 5 to its sender; no bridge
      handling and no event scanning happen for it. */
  lemma FixedActionCredit(txs: seq<Tx>, tx: Tx)
    requires tx.success && tx.contract == FixedContract && tx.fn == FixedFunction
    ensures Leaderboard(txs + [tx]) == AddPoints(Leaderboard(txs), tx.sender, 5)
  {
    LeaderboardAppend(txs, tx);
    assert TxCredits(tx) == [Credit(tx.sender, 5)];
    assert [Credit(tx.sender, 5)][..0] == [];
  }

  /** A successful `con_usdc.mint` credits its `to` address, not its sender,
      with the bridge points when the amount is positive and `to` is present;
      otherwise nothing changes.  Its events are never looked at. */
  lemma BridgeMintCredit(txs: seq<Tx>, tx: Tx)
    requires tx.success && IsBridgeMint(tx)
    ensures var minted := ParseAmount(tx.amount);
            Leaderboard(txs + [tx]) ==
              if Positive(minted) && Truthy(tx.to)
              then AddPoints(Leaderboard(txs), tx.to.value, PointsForBridge(minted.value))
              else Leaderboard(txs)
  {
    LeaderboardAppend(txs, tx);
    var c := BridgeCredit(tx);
    if c.Some? {
      assert [c.value][..0] == [];
    }
  }

  /** Any other successful transaction is scored by its events alone. */
  lemma SwapEventsCredit(txs: seq<Tx>, tx: Tx)
    requires tx.success && !(tx.contract == FixedContract && tx.fn == FixedFunction) && !IsBridgeMint(tx)
    ensures Leaderboard(txs + [tx]) == TallyFrom(Leaderboard(txs), EventCredits(tx.events))
  {
    LeaderboardAppend(txs, tx);
  }

  /** Scanning one more event: a pair-1 swap with a positive USDC equivalent
      adds the swap points to its signer, as a key even when they are zero;
      every other event, and every other address, is left alone. */
  lemma EventStep(scores: Scores, events: seq<Event>, e: Event)
    ensures var before := TallyFrom(scores, EventCredits(events));
            var eq := SwapUsdcEq(e);
            TallyFrom(scores, EventCredits(events + [e])) ==
              if IsPairOneSwap(e) && Positive(eq)
              then AddPoints(before, e.signer, PointsForSwap(eq.value))
              else before
  {
    assert (events + [e])[..|events|] == events;
    var c := EventCredit(e);
    TallyAppend(scores, EventCredits(events), OptionToSeq(c));
    if c.Some? {
      assert [c.value][..0] == [];
    }
  }

  /** A failed transaction, a fixed action and a bridge mint score the same
      whatever their events: those branches return before the event scan. */
  lemma EventsIgnoredUnlessScanned(txs: seq<Tx>, tx: Tx, events: seq<Event>)
    requires !tx.success || (tx.contract == FixedContract && tx.fn == FixedFunction) || IsBridgeMint(tx)
    ensures Leaderboard(txs + [tx.(events := events)]) == Leaderboard(txs + [tx])
  {
    LeaderboardAppend(txs, tx);
    LeaderboardAppend(txs, tx.(events := events));
  }

  // ---------------------------------------------------------------------
  // Properties of the whole pass
  // ---------------------------------------------------------------------

  /** Scores only grow during the pass: every key of an earlier table is still
      there later, holding at least as many points. */
  lemma LeaderboardGrows(txs: seq<Tx>, k: nat, addr: string)
    requires k <= |txs| && addr in Leaderboard(txs[..k])
    ensures addr in Leaderboard(txs)
    ensures Leaderboard(txs[..k])[addr] <= Leaderboard(txs)[addr]
  {
    assert txs[..k] + txs[k..] == txs;
    AllCreditsAppend(txs[..k], txs[k..]);
    var before, after := AllCredits(txs[..k]), AllCredits(txs[k..]);
    LeaderboardTotals(txs[..k], addr);
    LeaderboardTotals(txs, addr);
    var c :| c in before && c.addr == addr;
    assert c in before + after;
    SumForAppend(addr, before, after);
    AllCreditsBounded(txs[k..]);
    SumForNonNegative(addr, after);
  }

  /** The order in which two neighbouring transactions are processed does not
      change the table: each total is a plain sum. */
  lemma LeaderboardSwapNeighbours(a: seq<Tx>, x: Tx, y: Tx, b: seq<Tx>)
    ensures Leaderboard(a + [x, y] + b) == Leaderboard(a + [y, x] + b)
  {
    NeighbourCredits(a, x, y, b);
    NeighbourCredits(a, y, x, b);
    TallySwap(AllCredits(a), TxCredits(x), TxCredits(y), AllCredits(b));
  }

  /** The credits of `a`, then `x`, then `y`, then `b`. */
  lemma NeighbourCredits(a: seq<Tx>, x: Tx, y: Tx, b: seq<Tx>)
    ensures AllCredits(a + [x, y] + b) == AllCredits(a) + TxCredits(x) + TxCredits(y) + AllCredits(b)
  {
    assert a + [x, y] + b == a + [x] + [y] + b;
    AllCreditsAppend(a + [x] + [y], b);
    AllCreditsAppend(a + [x], [y]);
    AllCreditsAppend(a, [x]);
    assert [x][..0] == [] && [y][..0] == [];
  }

  /** Folding two neighbouring blocks of credits in either order gives the same table. */
  lemma TallySwap(ca: seq<Credit>, cx: seq<Credit>, cy: seq<Credit>, cb: seq<Credit>)
    ensures TallyFrom(map[], ca + cx + cy + cb) == TallyFrom(map[], ca + cy + cx + cb)
  {
    var l, r := ca + cx + cy + cb, ca + cy + cx + cb;
    forall addr
      ensures addr in TallyFrom(map[], l) <==> addr in TallyFrom(map[], r)
      ensures Held(TallyFrom(map[], l), addr) == Held(TallyFrom(map[], r), addr)
    {
      TallyAt(map[], l, addr);
      TallyAt(map[], r, addr);
      SumForAppend(addr, ca + cx + cy, cb);
      SumForAppend(addr, ca + cx, cy);
      SumForAppend(addr, ca, cx);
      SumForAppend(addr, ca + cy + cx, cb);
      SumForAppend(addr, ca + cy, cx);
      SumForAppend(addr, ca, cy);
      if Credited(addr, l) {
        var c :| c in l && c.addr == addr;
        assert c in r;
      }
      if Credited(addr, r) {
        var c :| c in r && c.addr == addr;
        assert c in l;
      }
    }
  }

  // ---------------------------------------------------------------------
  // The pass itself
  // ---------------------------------------------------------------------

  /** Folding a single credit adds it. */
  lemma TallyOne(scores: Scores, c: Credit)
    ensures TallyFrom(scores, [c]) == AddPoints(scores, c.addr, c.points)
  {
    assert [c][..0] == [];
  }

  /** The body of the inner `events.forEach`: a pair-1 swap with a positive
      USDC equivalent adds the swap points to its signer. */
  method ScoreEvent(scores0: Scores, evt: Event) returns (scores: Scores)
    ensures var eq := SwapUsdcEq(evt);
            scores == if IsPairOneSwap(evt) && Positive(eq)
                      then AddPoints(scores0, evt.signer, PointsForSwap(eq.value))
                      else scores0
  {
    scores := scores0;
    if evt.contract != "con_pairs" || evt.pair != Some("1") || evt.event != "Swap" {
      return;
    }
    var amount0In := ParseAmount(evt.amount0In);
    var amount1In := ParseAmount(evt.amount1In);
    if amount0In.None? || amount1In.None? {
      assert SwapUsdcEq(evt) == None;
      return;
    }
    var usdcEq := amount0In.value + ToUsdcFromCurrency(amount1In.value);
    assert SwapUsdcEq(evt) == Some(usdcEq);
    if usdcEq > 0.0 {
      scores := AddPoints(scores, evt.signer, PointsForSwap(usdcEq));
    }
  }

  /** The inner `events.forEach` over all events of a transaction. */
  method ScanEvents(scores0: Scores, events: seq<Event>) returns (scores: Scores)
    ensures scores == TallyFrom(scores0, EventCredits(events))
  {
    scores := scores0;
    var j := 0;
    while j < |events|
      invariant 0 <= j <= |events|
      invariant scores == TallyFrom(scores0, EventCredits(events[..j]))
    {
      assert events[..j + 1] == events[..j] + [events[j]];
      EventStep(scores0, events[..j], events[j]);
      scores := ScoreEvent(scores, events[j]);
      j := j + 1;
    }
    assert events[..j] == events;
  }

  /** The body of the outer `edges.forEach`: skip a failed transaction, score
      a fixed action and return, score a bridge mint and return, or else scan
      the events. */
  method ScoreTx(scores0: Scores, tx: Tx) returns (scores: Scores)
    ensures scores == TallyFrom(scores0, TxCredits(tx))
  {
    scores := scores0;
    if !tx.success {
      return;
    }
    var fixedKey := FixedKey(tx.contract, tx.fn);
    FixedKeyMatches(tx.contract, tx.fn);
    if fixedKey in FixedActions {
      TallyOne(scores0, Credit(tx.sender, 5));
      scores := AddPoints(scores, tx.sender, FixedActions[fixedKey]);
      return;
    }
    if tx.contract == "con_usdc" && tx.fn == "mint" {
      var minted := ParseAmount(tx.amount);
      if minted.Some? && minted.value > 0.0 && tx.to.Some? && tx.to.value != "" {
        TallyOne(scores0, BridgeCredit(tx).value);
        scores := AddPoints(scores, tx.to.value, PointsForBridge(minted.value));
      }
      return;
    }
    scores := ScanEvents(scores, tx.events);
  }

  /** `buildLeaderboard` without its rendering call: one pass over the
      transactions, updating the table in place. */
  method BuildLeaderboard(txs: seq<Tx>) returns (scores: Scores)
    ensures scores == Leaderboard(txs)
  {
    scores := map[];
    var i := 0;
    while i < |txs|
      invariant 0 <= i <= |txs|
      invariant scores == Leaderboard(txs[..i])
    {
      assert txs[..i + 1] == txs[..i] + [txs[i]];
      LeaderboardAppend(txs[..i], txs[i]);
      scores := ScoreTx(scores, txs[i]);
      i := i + 1;
    }
    assert txs[..i] == txs;
  }
}
