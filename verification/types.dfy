/** The records shared by the dashboard and the server (lib/types.ts, lib/shared/constants.ts). */
module Types {
  import opened Common

  /** Per-wallet replication parameters. */
  datatype CopyTradeConfig = CopyTradeConfig(multiplier: real, maxSingleTrade: real, priceImprovementPct: real)

  /** DEFAULT_COPY_TRADE_CONFIG. */
  const DefaultCopyTradeConfig := CopyTradeConfig(0.5, 1.0, 0.02)

  /** DEDUP_SET_MAX_SIZE. */
  const DedupSetMaxSize: nat := 10000

  /** An observed trade as the dashboard keeps it. `side` is "BUY" or "SELL" and `source`
      is "WS" or "POLL" by convention; both are plain strings at run time. */
  datatype Trade = Trade(
    conditionId: string,
    title: string,
    outcome: string,
    side: string,
    size: real,
    price: real,
    timestamp: int,
    transactionHash: string,
    walletAddress: string,
    source: string)

  /** An open or resolved position of a wallet. */
  datatype Position = Position(
    conditionId: string,
    title: string,
    outcome: string,
    size: real,
    avgPrice: real,
    curPrice: real,
    unrealizedPnl: real,
    marketValue: real,
    asset: string,
    redeemable: bool,
    endDate: string,
    cashPnl: real,
    realizedPnl: real,
    initialValue: real,
    currentValue: real,
    totalBought: real,
    percentPnl: real,
    slug: string,
    icon: string,
    eventSlug: string)

  /** A wallet the dashboard follows. */
  datatype TrackedWallet = TrackedWallet(
    address: string,
    walletLabel: string,  // `label` in the source (a reserved word here)
    notes: Option<string>,
    copyTradeEnabled: bool,
    copyTradeConfig: CopyTradeConfig)
}
