/** A worked run of the scorer on three transactions: a 100 USDC bridge mint
    to A, a 25 USDC swap on pair 1 signed by B, and a failed mint naming C. */
module Scenario {
  import opened Records
  import opened Classifier
  import opened Aggregator
  import opened Ranker

  const BridgeToA: Tx := Tx(true, "con_usdc", "mint", "relayer", Parsed(100.0), Some("A"), [])
  const SwapByB: Tx :=
    Tx(true, "con_dex", "swap", "B", Absent, None,
       [Event("con_pairs", "Swap", Some("1"), "B", Parsed(25.0), Absent)])
  const FailedForC: Tx := Tx(false, "con_usdc", "mint", "C", Parsed(1000.0), Some("C"), [])

  lemma AfterBridge()
    ensures Leaderboard([BridgeToA]) == map["A" := 10]
  {
    assert Leaderboard([]) == map[];
    BridgeMintCredit([], BridgeToA);
    assert [] + [BridgeToA] == [BridgeToA];
    assert Points.PointsForBridge(100.0) == 10;
  }

  lemma SwapByBCredits()
    ensures EventCredits(SwapByB.events) == [Credit("B", 2)]
  {
    var e := SwapByB.events[0];
    assert SwapByB.events == [e];
    assert SwapByB.events[..0] == [];
    assert IsPairOneSwap(e);
    assert SwapUsdcEq(e) == Some(25.0);
    assert Points.PointsForSwap(25.0) == 2;
    assert EventCredit(e) == Some(Credit("B", 2));
  }

  lemma AfterSwap()
    ensures Leaderboard([BridgeToA, SwapByB]) == map["A" := 10, "B" := 2]
  {
    AfterBridge();
    SwapEventsCredit([BridgeToA], SwapByB);
    assert [BridgeToA] + [SwapByB] == [BridgeToA, SwapByB];
    SwapByBCredits();
    TallyOne(map["A" := 10], Credit("B", 2));
    CreditB();
  }

  lemma CreditB()
    ensures AddPoints(map["A" := 10], "B", 2) == map["A" := 10, "B" := 2]
  {
    var r := AddPoints(map["A" := 10], "B", 2);
    assert r.Keys == {"A", "B"};
  }

  /** A gets 10 points, B gets 2, and C never becomes a key. */
  lemma ScenarioTable()
    ensures Leaderboard([BridgeToA, SwapByB, FailedForC]) == map["A" := 10, "B" := 2]
  {
    AfterSwap();
    FailedTxIgnored([BridgeToA, SwapByB], FailedForC);
    assert [BridgeToA, SwapByB] + [FailedForC] == [BridgeToA, SwapByB, FailedForC];
  }

  /** The only ranking of that table is [(A, 10), (B, 2)]. */
  lemma ScenarioRanking(ranking: seq<Entry>)
    requires IsRanking(map["A" := 10, "B" := 2], ranking)
    ensures ranking == [("A", 10), ("B", 2)]
  {
    var scores := map["A" := 10, "B" := 2];
    assert |scores| == 2 by {
      assert scores.Keys == {"A", "B"};
    }
    assert ranking[0] in ranking && ranking[1] in ranking;
    assert ("A", 10) in ranking;
    assert ("B", 2) in ranking;
  }

  /** A swap worth less than 10 USDC still makes its signer a key, with 0 points. */
  lemma DustSwapAddsKey(txs: seq<Tx>)
    requires "D" !in Leaderboard(txs)
    ensures var dust := Tx(true, "con_dex", "swap", "D", Absent, None,
                           [Event("con_pairs", "Swap", Some("1"), "D", Absent, Parsed(500.0))]);
            var after := Leaderboard(txs + [dust]);
            "D" in after && after["D"] == 0
  {
    var dust := Tx(true, "con_dex", "swap", "D", Absent, None,
                   [Event("con_pairs", "Swap", Some("1"), "D", Absent, Parsed(500.0))]);
    SwapEventsCredit(txs, dust);
    var e := dust.events[0];
    EventStep(Leaderboard(txs), [], e);
    assert [] + [e] == dust.events;
    assert SwapUsdcEq(e) == Some(5.0);
  }
}
