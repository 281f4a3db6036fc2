/** The events the tier vaults publish, and what they add up to. */
module VaultEvents {
  import opened Common

  datatype EventKind = DepositEvent | WithdrawEvent | EarlyExitEvent

  datatype VaultEvent = VaultEvent(tier: Tier, asset: Address, user: Address, kind: EventKind, amount: int) {
    function Delta(): int {
      if kind == DepositEvent then amount else -amount
    }
  }

  /** Net flow into one asset of one tier. */
  function Flow(events: seq<VaultEvent>, tier: Tier, asset: Address): int {
    if |events| == 0 then 0 else
      var last := events[|events| - 1];
      Flow(events[..|events| - 1], tier, asset)
      + if last.tier == tier && last.asset == asset then last.Delta() else 0
  }

  /** Net flow into one tier, over all assets. */
  function TierFlow(events: seq<VaultEvent>, tier: Tier): int {
    if |events| == 0 then 0 else
      var last := events[|events| - 1];
      TierFlow(events[..|events| - 1], tier) + if last.tier == tier then last.Delta() else 0
  }

  lemma FlowAppend(events: seq<VaultEvent>, ev: VaultEvent, tier: Tier, asset: Address)
    ensures Flow(events + [ev], tier, asset)
         == Flow(events, tier, asset) + if ev.tier == tier && ev.asset == asset then ev.Delta() else 0
    ensures TierFlow(events + [ev], tier) == TierFlow(events, tier) + if ev.tier == tier then ev.Delta() else 0
  {
    assert (events + [ev])[..|events|] == events;
  }
}
