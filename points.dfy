/** Scoring constants and the point helpers of the monthly competition scorer:
    unit conversion of the chain's native currency to USDC, and the
    volume-to-points formulas for bridging and for swaps. */
module Points {

  /** One point per 10 USDC bridged, at most 50 points per bridge mint. */
  const BridgeRatio: int := 10
  const BridgeCap: int := 50

  /** One point per 10 USDC of swap volume, at most 50 per swap, nothing below 10 USDC. */
  const SwapRatio: int := 10
  const SwapCap: int := 50
  const MinSwapUsdc: int := 10

  /** One unit of the native currency is worth one hundredth of a USDC. */
  const UsdcPerCurrency: real := 0.01

  function Min(a: int, b: int): int {
    if a <= b then a else b
  }

  /** `toUsdcFromCurrency`: fixed-rate conversion into USDC. */
  function ToUsdcFromCurrency(currencyAmount: real): (usdc: real)
    ensures usdc * 100.0 == currencyAmount
    ensures currencyAmount > 0.0 <==> usdc > 0.0
  {
    currencyAmount * UsdcPerCurrency
  }

  /** `pointsForBridge`: floor(minted / 10), capped at 50.  The JavaScript
      applies no lower clamp; a negative amount is never passed by the
      aggregation pass, which only calls it for amounts above zero. */
  function PointsForBridge(minted: real): (pts: int)
    ensures pts <= BridgeCap
    ensures minted >= 0.0 ==> 0 <= pts
    ensures minted >= (BridgeRatio * BridgeCap) as real ==> pts == BridgeCap
    ensures minted < (BridgeRatio * BridgeCap) as real ==>
              (pts * BridgeRatio) as real <= minted < ((pts + 1) * BridgeRatio) as real
  {
    Min((minted / BridgeRatio as real).Floor, BridgeCap)
  }

  /** Bridging more never earns fewer points. */
  lemma PointsForBridgeMonotone(a: real, b: real)
    requires a <= b
    ensures PointsForBridge(a) <= PointsForBridge(b)
  {
    assert (a / 10.0).Floor <= (b / 10.0).Floor;
  }

  /** `pointsForSwap`: nothing below the 10 USDC threshold, otherwise
      floor(usdcEq / 10), capped at 50. */
  function PointsForSwap(usdcEq: real): (pts: int)
    ensures usdcEq < MinSwapUsdc as real ==> pts == 0
    ensures usdcEq >= MinSwapUsdc as real ==> 1 <= pts <= SwapCap
    ensures usdcEq >= (SwapRatio * SwapCap) as real ==> pts == SwapCap
    ensures MinSwapUsdc as real <= usdcEq < (SwapRatio * SwapCap) as real ==>
              (pts * SwapRatio) as real <= usdcEq < ((pts + 1) * SwapRatio) as real
  {
    if usdcEq < MinSwapUsdc as real then 0
    else Min((usdcEq / SwapRatio as real).Floor, SwapCap)
  }

  /** Swapping more never earns fewer points. */
  lemma PointsForSwapMonotone(a: real, b: real)
    requires a <= b
    ensures PointsForSwap(a) <= PointsForSwap(b)
  {
    if a >= 10.0 {
      assert (a / 10.0).Floor <= (b / 10.0).Floor;
    }
  }
}
