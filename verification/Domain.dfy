/** The enumerations shared by the scoring modules. */
module Domain {

  datatype SourceTier = Primary | VerifiedThirdParty | Aggregator | SelfReported | Inferred

  datatype ClaimCategory =
    | Traction | Revenue | Team | Market | Product | Technology | Funding | Legal | Other

  datatype ClaimStatus =
    | Verified | Corroborated | Claimed | Contradicted | NotDisclosed | Unverifiable

  datatype DecisionKind = Invest | Pass | Watchlist | NeedsHuman

  datatype AxisKind = FounderAxis | MarketAxis | IdeaVsMarketAxis

  datatype TrendKind = Improving | Stable | Declining | InsufficientData
}
