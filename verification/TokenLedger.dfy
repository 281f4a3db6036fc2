/** The token contracts seen from the protocol: who holds how much of which asset. */
module TokenLedger {
  import opened Common
  import opened MapSums

  /** Account kinds are disjoint by construction, so no user is a vault or the strategy. */
  datatype Account =
    | Wallet(addr: Address)
    | VaultAccount(tier: Tier)
    | StrategyAccount
    | HarvesterAccount

  datatype Slot = Slot(owner: Account, asset: Address)

  type Tokens = map<Slot, nat>

  function Holding(tokens: Tokens, owner: Account, asset: Address): nat {
    if Slot(owner, asset) in tokens then tokens[Slot(owner, asset)] else 0
  }

  function Transfer(tokens: Tokens, asset: Address, from: Account, to: Account, amount: int): Result<Tokens> {
    if amount < 0 || Holding(tokens, from, asset) < amount then Err(InsufficientFunds)
    else
      var debited := tokens[Slot(from, asset) := Holding(tokens, from, asset) - amount];
      Ok(debited[Slot(to, asset) := Holding(debited, to, asset) + amount])
  }

  /** A transfer takes from one account, gives to the other, and touches no third holding. */
  lemma TransferMoves(tokens: Tokens, asset: Address, from: Account, to: Account, amount: int)
    requires from != to && Transfer(tokens, asset, from, to, amount).Ok?
    ensures var after := Transfer(tokens, asset, from, to, amount).value;
            && 0 <= amount
            && Holding(after, from, asset) == Holding(tokens, from, asset) - amount
            && Holding(after, to, asset) == Holding(tokens, to, asset) + amount
            && forall o, a :: (o != from && o != to) || a != asset ==> Holding(after, o, a) == Holding(tokens, o, a)
  {
  }

  /** It is granted exactly for an amount from zero to the holding. */
  lemma TransferGranted(tokens: Tokens, asset: Address, from: Account, to: Account, amount: int)
    ensures Transfer(tokens, asset, from, to, amount).Ok? <==> 0 <= amount <= Holding(tokens, from, asset)
    ensures Transfer(tokens, asset, from, to, amount).Err? ==> Transfer(tokens, asset, from, to, amount) == Err(InsufficientFunds)
  {
  }

  // ---------------------------------------------------------------------------
  // Supply
  // ---------------------------------------------------------------------------

  ghost function Holdings(tokens: Tokens, asset: Address): map<Slot, int> {
    map s | s in tokens && s.asset == asset :: tokens[s]
  }

  /** All that exists of an asset. */
  ghost function Supply(tokens: Tokens, asset: Address): int {
    Sum(Holdings(tokens, asset))
  }

  lemma SupplyUpdate(tokens: Tokens, slot: Slot, amount: nat, asset: Address)
    ensures Supply(tokens[slot := amount], asset)
         == Supply(tokens, asset) + if slot.asset == asset then amount - Holding(tokens, slot.owner, slot.asset) else 0
  {
    if slot.asset == asset {
      assert Holdings(tokens[slot := amount], asset) == Holdings(tokens, asset)[slot := amount];
      SumUpdate(Holdings(tokens, asset), slot, amount);
    } else {
      assert Holdings(tokens[slot := amount], asset) == Holdings(tokens, asset);
    }
  }

  /** A transfer neither creates nor destroys tokens, even from an account to itself. */
  lemma TransferConserves(tokens: Tokens, asset: Address, from: Account, to: Account, amount: int, a: Address)
    requires Transfer(tokens, asset, from, to, amount).Ok?
    ensures Supply(Transfer(tokens, asset, from, to, amount).value, a) == Supply(tokens, a)
  {
    hide Supply;
    var debited := tokens[Slot(from, asset) := Holding(tokens, from, asset) - amount];
    SupplyUpdate(tokens, Slot(from, asset), Holding(tokens, from, asset) - amount, a);
    SupplyUpdate(debited, Slot(to, asset), Holding(debited, to, asset) + amount, a);
  }
}
