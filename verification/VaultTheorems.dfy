/** The main results about the vault ledger, for every run of the router from fresh contracts. */
module VaultTheorems {
  import opened Common
  import opened FloorArithmetic
  import opened MapSums
  import opened TierVaults
  import opened TokenLedger
  import opened VaultEvents
  import opened VaultRouter
  import opened VaultInvariants

  // ---------------------------------------------------------------------------
  // The fees that the calls of a run were charged
  // ---------------------------------------------------------------------------

  /** The contract's fee on one call: only early exits pay one. */
  function CallFee(w: World, a: Action): int {
    if a.EarlyExit? then w.tiers.At(a.tier).ExitFee(a.asset, a.amount) else 0
  }

  /** The fees of the calls that succeeded, on one asset of one tier. */
  ghost function Charged(w: World, actions: seq<Action>, t: Tier, asset: Address): int {
    if |actions| == 0 then 0 else
      var before, last := actions[..|actions| - 1], actions[|actions| - 1];
      Charged(w, before, t, asset)
      + if Step(Run(w, before), last).Ok? && last.EarlyExit? && last.tier == t && last.asset == asset
        then CallFee(Run(w, before), last) else 0
  }

  /** And on all assets of one tier. */
  ghost function TierCharged(w: World, actions: seq<Action>, t: Tier): int {
    if |actions| == 0 then 0 else
      var before, last := actions[..|actions| - 1], actions[|actions| - 1];
      TierCharged(w, before, t)
      + if Step(Run(w, before), last).Ok? && last.EarlyExit? && last.tier == t then CallFee(Run(w, before), last) else 0
  }

  lemma CallOfEntry(w: World, a: Action)
    requires IsMove(a) && Step(w, a).Ok?
    ensures var w' := Step(w, a).value;
            && 0 < |w'.history| && LastEntry(w').Moved?
            && LastEntry(w').Tier() == a.tier && LastEntry(w').Key() == Key(a.user, a.asset)
            && LastEntry(w').gross == a.amount
            && LastEntry(w').event.kind
               == (if a.Deposit? then DepositEvent else if a.Withdraw? then WithdrawEvent else EarlyExitEvent)
  {
    hide Vault.Deposit, Vault.Withdraw, Vault.EarlyExit, Vault.ExitPayout, PayOut, Transfer;
  }

  /** A step adds its own call's fee to the history's, and nothing else. */
  lemma {:induction false} FeesStep(w: World, a: Action, t: Tier, asset: Address)
    requires Configured(w) && NonNegative(a) && Step(w, a).Ok?
    ensures var h, h' := w.history, Step(w, a).value.history;
            && Fees(h', t, asset)
               == Fees(h, t, asset) + (if a.EarlyExit? && a.tier == t && a.asset == asset then CallFee(w, a) else 0)
            && TierFees(h', t) == TierFees(h, t) + (if a.EarlyExit? && a.tier == t then CallFee(w, a) else 0)
  {
    var w' := Step(w, a).value;
    StepShape(w, a);
    if IsMove(a) {
      CallOfEntry(w, a);
      hide Step;
      MovePaysExactly(w.tiers.At(a.tier), w'.tiers.At(a.tier), LastEntry(w'));
      HistoryGrows(w.history, LastEntry(w'));
    } else if a.Relock? {
      HistoryGrows(w.history, Relocked(a.tier, Key(a.user, a.asset), w.now));
    }
  }

  lemma {:induction false} FeesAreCharges(w: World, actions: seq<Action>, t: Tier, asset: Address)
    requires Genesis(w) && forall a :: a in actions ==> NonNegative(a)
    ensures Fees(Run(w, actions).history, t, asset) == Charged(w, actions, t, asset)
    ensures TierFees(Run(w, actions).history, t) == TierCharged(w, actions, t)
  {
    if 0 < |actions| {
      var before, last := actions[..|actions| - 1], actions[|actions| - 1];
      FeesAreCharges(w, before, t, asset);
      ReachableInvariant(w, before);
      if Step(Run(w, before), last).Ok? {
        assert last in actions;
        FeesStep(Run(w, before), last, t, asset);
        hide Step, CallFee, Invariant, Fees, TierFees;
      }
    }
  }

  /** The call takes a fee that does not round down to nothing. A caller can tell before calling. */
  ghost predicate PaysFee(w: World, a: Action, t: Tier) {
    && a.EarlyExit? && a.tier == t
    && Step(w, a).Ok?
    && !w.tiers.At(t).EmergencyOn(a.asset)
    && FP_ONE <= a.amount * ConfigOf(t).ExitRate()
  }

  lemma FeePaidExactly(w: World, a: Action)
    requires Configured(w) && a.EarlyExit? && 0 <= a.amount
    ensures 0 <= CallFee(w, a)
    ensures CallFee(w, a) > 0 <==>
              !w.tiers.At(a.tier).EmergencyOn(a.asset) && FP_ONE <= a.amount * ConfigOf(a.tier).ExitRate()
  {
    FeeWithinAmount(w.tiers.At(a.tier), a.asset, a.amount);
    MulFpBounds(a.amount, ConfigOf(a.tier).ExitRate());
  }

  /** Some call of the run paid a fee. */
  ghost predicate SomeCallPays(w: World, actions: seq<Action>, t: Tier) {
    exists n :: 0 <= n < |actions| && PaysFee(Run(w, actions[..n]), actions[n], t)
  }

  lemma LastCallPaysOrEarlier(w: World, actions: seq<Action>, t: Tier)
    requires 0 < |actions|
    ensures var before, last := actions[..|actions| - 1], actions[|actions| - 1];
            SomeCallPays(w, actions, t) <==> SomeCallPays(w, before, t) || PaysFee(Run(w, before), last, t)
  {
    hide Run, PaysFee;
    var k := |actions| - 1;
    forall n | 0 <= n < k
      ensures PaysFee(Run(w, actions[..n]), actions[n], t) <==> PaysFee(Run(w, actions[..k][..n]), actions[..k][n], t)
    {
      assert actions[..k][..n] == actions[..n];
    }
  }

  /** A tier has charged something exactly when one of the run's calls paid a fee. */
  lemma {:induction false} ChargedExactly(w: World, actions: seq<Action>, t: Tier)
    requires Genesis(w) && forall a :: a in actions ==> NonNegative(a)
    ensures 0 <= TierCharged(w, actions, t)
    ensures TierCharged(w, actions, t) == 0 <==> !SomeCallPays(w, actions, t)
  {
    if 0 < |actions| {
      var before, last := actions[..|actions| - 1], actions[|actions| - 1];
      ChargedExactly(w, before, t);
      ReachableInvariant(w, before);
      LastCallPaysOrEarlier(w, actions, t);
      assert last in actions;
      hide Run, Step, SomeCallPays, Genesis;
      if last.EarlyExit? {
        FeePaidExactly(Run(w, before), last);
      }
      hide CallFee, Invariant;
    }
  }

  // ---------------------------------------------------------------------------
  // Main results
  // ---------------------------------------------------------------------------

  /**
   Solvency: in every run a vault holds the users' balances, plus the floored fee of every
   early exit that was charged one, plus what reached its account by other ways.
   */
  lemma {:induction false} EveryRunIsSolvent(w: World, actions: seq<Action>, t: Tier, asset: Address)
    requires Genesis(w) && forall a :: a in actions ==> NonNegative(a)
    ensures var r := Run(w, actions);
            && r.VaultHolding(t, asset) == Owed(r.tiers.At(t), asset) + Charged(w, actions, t, asset) + r.Arrived(t, asset)
            && 0 <= Charged(w, actions, t, asset)
  {
    ReachableInvariant(w, actions);
    FeesAreCharges(w, actions, t, asset);
  }

  /** What leaves a position reaches the user: all of it on withdrawal, all but the fee on early exit. */
  lemma {:induction false} ExitsPayTheUser(w: World, a: Action, o: Account, asset: Address)
    requires (a.Withdraw? || a.EarlyExit?) && NonNegative(a) && Step(w, a).Ok?
    ensures var w', paid := Step(w, a).value, a.amount - CallFee(w, a);
            && w'.tiers.At(a.tier).BalanceOf(Key(a.user, a.asset)) == w.tiers.At(a.tier).BalanceOf(Key(a.user, a.asset)) - a.amount
            && Holding(w'.tokens, o, asset)
               == Holding(w.tokens, o, asset)
                  + (if asset != a.asset then 0 else if o == Wallet(a.user) then paid else if o == VaultAccount(a.tier) then -paid else 0)
  {
    var v, key := w.tiers.At(a.tier), Key(a.user, a.asset);
    BurnShape(v, key, a.amount);
    FeeWithinAmount(v, a.asset, a.amount);
    PayOutReaches(w.tokens, a.asset, a.tier, a.user, a.amount - CallFee(w, a), o, asset);
    if a.Withdraw? {
      WithdrawIsBurn(v, key, a.amount, w.now);
    } else {
      EarlyExitIsBurn(v, key, a.amount);
    }
    hide Vault.Withdraw, Vault.EarlyExit, Vault.Burn, Vault.ExitFee, PayOut, Holding;
  }

  lemma PayOutReaches(tokens: Tokens, asset: Address, tier: Tier, user: Address, payout: int, o: Account, b: Address)
    requires 0 <= payout
    ensures PayOut(tokens, asset, tier, user, payout).Ok? ==>
              Holding(PayOut(tokens, asset, tier, user, payout).value, o, b)
              == Holding(tokens, o, b)
                 + (if b != asset then 0 else if o == Wallet(user) then payout else if o == VaultAccount(tier) then -payout else 0)
  {
  }

  /** So no payout transfer can fall short: an exit that the vault grants is paid. */
  lemma {:induction false} PayoutNeverFallsShort(w: World, actions: seq<Action>, a: Action)
    requires Genesis(w) && forall x :: x in actions ==> NonNegative(x)
    requires (a.Withdraw? || a.EarlyExit?) && NonNegative(a)
    ensures Step(Run(w, actions), a) != Err(InsufficientFunds)
  {
    ReachableInvariant(w, actions);
    hide Run;
    GrantedExitIsCovered(Run(w, actions), a);
  }

  lemma GrantedExitIsCovered(w: World, a: Action)
    requires Backed(w) && FeesKept(w)
    requires (a.Withdraw? || a.EarlyExit?) && NonNegative(a)
    ensures Step(w, a) != Err(InsufficientFunds)
  {
    var v, key := w.tiers.At(a.tier), Key(a.user, a.asset);
    assert w.Routed(a.tier, a.asset) == Owed(v, a.asset) + Fees(w.history, a.tier, a.asset);
    OwedCoversPosition(v, key);
    FeeWithinAmount(v, a.asset, a.amount);
    BurnOutcomes(v, key, a.amount);
    hide Vault.Burn;
  }

  lemma BurnOutcomes(v: Vault, key: Key, amount: int)
    ensures v.Burn(key, amount).Ok? ==> amount <= v.BalanceOf(key)
    ensures v.Burn(key, amount) != Err(InsufficientFunds)
  {
  }

  lemma OwedCoversPosition(v: Vault, key: Key)
    ensures v.BalanceOf(key) <= Owed(v, key.asset)
    ensures v.BalanceOf(key) <= v.TotalBalance()
  {
    SumCovers(AssetBalances(v.positions, key.asset));
    SumCovers(Balances(v.positions));
    if key in v.positions {
      assert AssetBalances(v.positions, key.asset)[key] == v.BalanceOf(key);
      assert Balances(v.positions)[key] == v.BalanceOf(key);
    }
  }

  /** Shares stay between the balance and its double, however often a position is topped up or cut down. */
  lemma {:induction false} SharesTrackBalances(w: World, actions: seq<Action>, t: Tier, key: Key)
    requires Genesis(w) && forall a :: a in actions ==> NonNegative(a)
    ensures var r := Run(w, actions);
            var v, m := r.tiers.At(t), ConfigOf(t).Multiplier();
            var b, s := v.BalanceOf(key), v.SharesOf(key);
            var d, n := Deposits(r.history, t, key), Burns(r.history, t, key);
            && b <= s <= 2 * b
            && (t == Flex ==> s == b)
            && (0 < b ==> b * m - d * FP_ONE < s * FP_ONE <= b * m + n * FP_ONE)
  {
    ReachableInvariant(w, actions);
    var v := Run(w, actions).tiers.At(t);
    if key in v.positions {
      assert PositionBounded(v.positions[key], t);
    }
  }

  /** A partial exit never lowers the shares held per unit of balance. */
  lemma {:induction false} PartialExitKeepsShareRate(w: World, a: Action)
    requires Configured(w) && (a.Withdraw? || a.EarlyExit?) && NonNegative(a) && Step(w, a).Ok?
    ensures var key := Key(a.user, a.asset);
            var v, v' := w.tiers.At(a.tier), Step(w, a).value.tiers.At(a.tier);
            v.SharesOf(key) * v'.BalanceOf(key) <= v'.SharesOf(key) * v.BalanceOf(key)
  {
    var w' := Step(w, a).value;
    StepShape(w, a);
    EntryOfExit(w, a);
    hide Step;
    VaultMoveKeepsShareRate(w.tiers.At(a.tier), w'.tiers.At(a.tier), LastEntry(w'));
  }

  /** The entry of an exit names the action's tier and position. */
  lemma EntryOfExit(w: World, a: Action)
    requires (a.Withdraw? || a.EarlyExit?) && Step(w, a).Ok?
    ensures var w' := Step(w, a).value;
            && 0 < |w'.history|
            && LastEntry(w').Moved?
            && LastEntry(w').event.kind != DepositEvent
            && LastEntry(w').Tier() == a.tier
            && LastEntry(w').Key() == Key(a.user, a.asset)
  {
  }

  lemma VaultMoveKeepsShareRate(v: Vault, v': Vault, e: Entry)
    requires e.Moved? && e.event.kind != DepositEvent && VaultMoves(v, v', e)
    ensures v.SharesOf(e.Key()) * v'.BalanceOf(e.Key()) <= v'.SharesOf(e.Key()) * v.BalanceOf(e.Key())
  {
    if !e.closes {
      BurnProportion(v.BalanceOf(e.Key()), v.SharesOf(e.Key()), e.gross);
    }
  }

  /** Lock safety: outside an emergency, funds leave a locked tier only a full lock after the last deposit and relock. */
  lemma {:induction false} WithdrawalsWaitOutTheLock(w: World, actions: seq<Action>, user: Address, tier: Tier, asset: Address, amount: nat, i: nat)
    requires Genesis(w) && forall a :: a in actions ==> NonNegative(a)
    requires var r := Run(w, actions);
             && tier != Flex
             && 0 < r.tiers.At(tier).BalanceOf(Key(user, asset))
             && !r.tiers.At(tier).EmergencyOn(asset)
             && Step(r, Withdraw(user, tier, asset, amount)).Ok?
             && i < |r.history|
             && r.history[i].Tier() == tier && r.history[i].Key() == Key(user, asset) && StartsLock(r.history[i])
    ensures var r := Run(w, actions);
            r.history[i].ledger + ConfigOf(tier).LockLength() <= r.now
  {
    ReachableInvariant(w, actions);
    var r := Run(w, actions);
    assert Key(user, asset) in r.tiers.At(tier).positions;
    assert LockGuards(r, tier, Key(user, asset));
  }

  /** While a position stays open its lock never moves back. */
  lemma {:induction false} LockNeverMovesBack(w: World, a: Action, t: Tier, key: Key)
    requires Invariant(w) && NonNegative(a) && Step(w, a).Ok?
    requires key in w.tiers.At(t).positions && key in Step(w, a).value.tiers.At(t).positions
    ensures w.tiers.At(t).LockOf(key) <= Step(w, a).value.tiers.At(t).LockOf(key)
  {
    StepShape(w, a);
    var w' := Step(w, a).value;
    if IsMove(a) {
      MovesKeepLock(w, w', LastEntry(w'), t, key);
    } else if !a.Relock? {
      assert SamePositions(w, w', t);
    }
  }

  lemma MovesKeepLock(w: World, w': World, e: Entry, t: Tier, key: Key)
    requires Configured(w) && LocksGuard(w) && Moves(w, w', e)
    requires key in w.tiers.At(t).positions && key in w'.tiers.At(t).positions
    ensures w.tiers.At(t).LockOf(key) <= w'.tiers.At(t).LockOf(key)
  {
    if t != Flex {
      assert LockGuards(w, t, key);
    }
  }

  /** The one position a step may touch. */
  predicate Targets(a: Action, t: Tier, key: Key) {
    (IsMove(a) || a.Relock?) && a.tier == t && key == Key(a.user, a.asset)
  }

  /** No step touches another position: not its balance, its shares or its lock. */
  lemma {:induction false} StepsTouchOnePosition(w: World, a: Action, t: Tier, key: Key)
    requires Configured(w) && NonNegative(a) && Step(w, a).Ok?
    requires !Targets(a, t, key)
    ensures var v, v' := w.tiers.At(t), Step(w, a).value.tiers.At(t);
            && v'.BalanceOf(key) == v.BalanceOf(key)
            && v'.SharesOf(key) == v.SharesOf(key)
            && v'.LockOf(key) == v.LockOf(key)
  {
    StepShape(w, a);
    var w' := Step(w, a).value;
    if IsMove(a) {
      MovesTouchOnePosition(w, w', LastEntry(w'), t, key);
    } else if !a.Relock? {
      assert SamePositions(w, w', t);
    }
  }

  lemma MovesTouchOnePosition(w: World, w': World, e: Entry, t: Tier, key: Key)
    requires Moves(w, w', e) && (t != e.Tier() || key != e.Key())
    ensures var v, v' := w.tiers.At(t), w'.tiers.At(t);
            v'.BalanceOf(key) == v.BalanceOf(key) && v'.SharesOf(key) == v.SharesOf(key) && v'.LockOf(key) == v.LockOf(key)
  {
  }

  /** Setting one asset's emergency flag changes neither the answer nor the position for any other asset. */
  lemma EmergencyIsPerAsset(v: Vault, asset: Address, active: bool, key: Key, amount: int, now: nat)
    requires v.SetEmergency(asset, active).Ok? && key.asset != asset
    ensures var v' := v.SetEmergency(asset, active).value;
            && SameOutcome(v.Withdraw(key, amount, now), v'.Withdraw(key, amount, now), key)
            && SameOutcome(v.EarlyExit(key, amount), v'.EarlyExit(key, amount), key)
            && v.ExitFee(key.asset, amount) == v'.ExitFee(key.asset, amount)
  {
  }

  ghost predicate SameOutcome(r: Result<Vault>, r': Result<Vault>, key: Key) {
    match r
    case Ok(v) => r'.Ok? && r'.value.positions == v.positions && r'.value.locks == v.locks
    case Err(e) => r' == Err(e)
  }

  // ---------------------------------------------------------------------------
  // Caps, totals, and the absence of overflow
  // ---------------------------------------------------------------------------

  /** No cap set in the course of `actions` exceeds `limit`. */
  predicate CapsWithin(actions: seq<Action>, limit: int) {
    forall a :: a in actions && a.SetMaxTvl? ==> a.newCap <= limit
  }

  ghost predicate TotalsWithin(w: World, limit: int) {
    forall t :: t != Flex ==> w.tiers.At(t).cap <= limit && w.tiers.At(t).TotalBalance() <= limit
  }

  lemma TotalsWithinMove(w: World, a: Action, limit: int)
    requires Configured(w) && NonNegative(a) && Step(w, a).Ok? && TotalsWithin(w, limit) && IsMove(a)
    ensures TotalsWithin(Step(w, a).value, limit)
  {
    var w' := Step(w, a).value;
    StepShape(w, a);
    var e := LastEntry(w');
    if a.Deposit? && a.tier != Flex {
      assert w.tiers.At(a.tier).cfg == ConfigOf(a.tier);
      DepositUnderCap(w, a);
    }
    hide Step;
    MovesWithin(w, w', e, limit);
  }

  lemma DepositUnderCap(w: World, a: Action)
    requires a.Deposit? && Step(w, a).Ok? && w.tiers.At(a.tier).cfg.Timelocked?
    ensures w.tiers.At(a.tier).TotalBalance() + a.amount <= w.tiers.At(a.tier).cap
    ensures LastEntry(Step(w, a).value).gross == a.amount
  {
  }

  lemma MovesWithin(w: World, w': World, e: Entry, limit: int)
    requires Configured(w) && Moves(w, w', e) && TotalsWithin(w, limit)
    requires e.event.kind == DepositEvent && e.Tier() != Flex ==>
               w.tiers.At(e.Tier()).TotalBalance() + e.gross <= w.tiers.At(e.Tier()).cap
    ensures TotalsWithin(w', limit)
  {
    MovesBalances(w, w', e, "");
  }

  lemma TotalsWithinOther(w: World, a: Action, limit: int)
    requires Configured(w) && Step(w, a).Ok? && TotalsWithin(w, limit) && !IsMove(a)
    requires a.SetMaxTvl? ==> a.newCap <= limit
    ensures TotalsWithin(Step(w, a).value, limit)
  {
    var w' := Step(w, a).value;
    forall t | t != Flex
      ensures w'.tiers.At(t).cap <= limit && w'.tiers.At(t).positions == w.tiers.At(t).positions
    {
    }
  }

  /** A locked tier never holds more than the largest cap ever in force. */
  lemma {:induction false} LockedTotalsNeverExceedCaps(w: World, actions: seq<Action>, limit: nat)
    requires Genesis(w) && forall a :: a in actions ==> NonNegative(a)
    requires CapsWithin(actions, limit) && forall t :: t != Flex ==> w.tiers.At(t).cap <= limit
    ensures TotalsWithin(Run(w, actions), limit)
  {
    if |actions| == 0 {
      forall t | t != Flex
        ensures w.tiers.At(t).TotalBalance() == 0
      {
        assert FreshVault(w.tiers.At(t), t);
        assert Balances(w.tiers.At(t).positions) == map[];
      }
    } else {
      var before, last := actions[..|actions| - 1], actions[|actions| - 1];
      LockedTotalsNeverExceedCaps(w, before, limit);
      ReachableInvariant(w, before);
      assert last in actions;
      if Step(Run(w, before), last).Ok? {
        if IsMove(last) {
          TotalsWithinMove(Run(w, before), last, limit);
        } else {
          TotalsWithinOther(Run(w, before), last, limit);
        }
      }
    }
  }

  const CAP_LIMIT: int := 0x4000_0000_0000_0000

  /** With bounded shares, the total of shares is at most twice the total of balances. */
  lemma TotalSharesAtMostTwice(w: World, t: Tier)
    requires SharesBounded(w)
    ensures w.tiers.At(t).TotalShares() <= 2 * w.tiers.At(t).TotalBalance()
    ensures forall k :: k in w.tiers.At(t).positions ==> w.tiers.At(t).SharesOf(k) <= w.tiers.At(t).TotalShares()
    ensures 0 <= w.tiers.At(t).TotalShares()
  {
    var v := w.tiers.At(t);
    forall k | k in v.positions
      ensures Shares(v.positions)[k] <= 2 * Balances(v.positions)[k]
    {
      assert PositionBounded(v.positions[k], t);
    }
    SumAtMostTwice(Shares(v.positions), Balances(v.positions));
    SumCovers(Shares(v.positions));
    forall k | k in v.positions
      ensures v.SharesOf(k) <= v.TotalShares()
    {
      assert Shares(v.positions)[k] == v.SharesOf(k);
    }
  }

  lemma ProductFits(x: int, y: int)
    requires 0 <= x <= 2 * CAP_LIMIT && 0 <= y <= CAP_LIMIT
    ensures InI128(x * y)
  {
    MulMonotone(x, 2 * CAP_LIMIT, y);
    MulMonotone(y, CAP_LIMIT, 2 * CAP_LIMIT);
    assert 2 * CAP_LIMIT * y == y * (2 * CAP_LIMIT);
    assert 0 <= x * y;
  }

  /** A vault small enough that no product of its amounts can overflow. */
  ghost predicate Roomy(v: Vault, key: Key) {
    && v.BalanceOf(key) <= v.TotalBalance() <= CAP_LIMIT
    && v.SharesOf(key) <= 2 * v.BalanceOf(key)
    && v.SharesOf(key) <= v.TotalShares() <= 2 * v.TotalBalance()
  }

  lemma BoundedIsRoomy(w: World, t: Tier, key: Key)
    requires SharesBounded(w) && w.tiers.At(t).TotalBalance() <= CAP_LIMIT
    ensures Roomy(w.tiers.At(t), key)
  {
    var v := w.tiers.At(t);
    OwedCoversPosition(v, key);
    TotalSharesAtMostTwice(w, t);
    if key in v.positions {
      assert PositionBounded(v.positions[key], t);
    }
  }

  lemma BurnNeverTraps(v: Vault, key: Key, amount: nat)
    requires Roomy(v, key)
    ensures v.Burn(key, amount) != Err(Trap)
  {
    var b, s := v.BalanceOf(key), v.SharesOf(key);
    if amount < b {
      ProductFits(s, amount);
      BurnWithinShares(b, s, amount);
      assert 0 <= s * amount;
      assert 0 <= TruncDiv(s * amount, b) <= s;
    }
  }

  /** While a tier's total is at most 2^62, leaving it never overflows. */
  lemma ExitsNeverTrap(v: Vault, key: Key, amount: nat, now: nat)
    requires Roomy(v, key)
    ensures v.Withdraw(key, amount, now) != Err(Trap)
    ensures v.EarlyExit(key, amount) != Err(Trap)
  {
    BurnNeverTraps(v, key, amount);
    hide Vault.Burn;
    if amount <= v.BalanceOf(key) && v.cfg.Timelocked? {
      ProductFits(amount, v.cfg.exitFee);
      FeeWithinAmount(v, key.asset, amount);
    }
  }

  /** A deposit under the cap overflows only if its lock would lie past the last 32-bit ledger. */
  lemma DepositTrapsOnlyOnLedger(v: Vault, key: Key, amount: int, now: nat)
    requires Roomy(v, key) && v.cfg.Timelocked? && v.cap <= CAP_LIMIT
    requires v.cfg.minDeposit <= amount && v.TotalBalance() + amount <= v.cap
    ensures v.Deposit(key, amount, now) == Err(Trap) <==> U32_MAX < now + v.cfg.LockLength()
  {
    ProductFits(amount, v.cfg.multiplier);
    MintIsPositive(v.cfg, amount);
    hide MulFp;
  }

  /**
   If every cap ever set on a locked tier is at most 2^62, then in every reachable state no
   withdrawal or early exit traps, and a deposit that passes the cap check traps exactly when
   the new lock would pass the last ledger number.
   */
  lemma {:induction false} LockedTiersNeverOverflow(w: World, actions: seq<Action>, t: Tier, key: Key, amount: nat)
    requires Genesis(w) && (forall a :: a in actions ==> NonNegative(a)) && t != Flex
    requires CapsWithin(actions, CAP_LIMIT) && forall x :: x != Flex ==> w.tiers.At(x).cap <= CAP_LIMIT
    ensures var r := Run(w, actions);
            var v := r.tiers.At(t);
            && v.Withdraw(key, amount, r.now) != Err(Trap)
            && v.EarlyExit(key, amount) != Err(Trap)
            && (v.cfg.minDeposit <= amount && v.TotalBalance() + amount <= v.cap ==>
                  (v.Deposit(key, amount, r.now) == Err(Trap) <==> U32_MAX < r.now + ConfigOf(t).LockLength()))
  {
    var r := Run(w, actions);
    ReachableInvariant(w, actions);
    LockedTotalsNeverExceedCaps(w, actions, CAP_LIMIT);
    hide Run;
    var v := r.tiers.At(t);
    assert v.cfg == ConfigOf(t);
    BoundedIsRoomy(r, t, key);
    ExitsNeverTrap(v, key, amount, r.now);
    if v.cfg.minDeposit <= amount && v.TotalBalance() + amount <= v.cap {
      DepositTrapsOnlyOnLedger(v, key, amount, r.now);
    }
  }

  // ---------------------------------------------------------------------------
  // The sign of an exit
  // ---------------------------------------------------------------------------

  /**
   The contracts do not check the sign of the amount that leaves a position. An exit that
   succeeds keeps the vault backed exactly when its amount is not negative.
   */
  lemma {:induction false} SignDecidesBacking(w: World, a: Action)
    requires Invariant(w) && (a.Withdraw? || a.EarlyExit?) && Step(w, a).Ok?
    ensures Backed(Step(w, a).value) <==> 0 <= a.amount
  {
    if 0 <= a.amount {
      InvariantStep(w, a);
    } else {
      NegativeExit(w, a);
      NegativeExitUnbacks(w, Step(w, a).value, LastEntry(Step(w, a).value));
    }
  }

  /** A negative exit raises the position, moves no tokens, and its fee does not make up for it. */
  ghost predicate RaisesUnpaid(w: World, w': World, e: Entry) {
    var t, key := e.Tier(), e.Key();
    && e.Moved?
    && w'.history == w.history + [e]
    && e.gross < e.Fee()
    && w'.tokens == w.tokens && w'.arrived == w.arrived
    && key in w'.tiers.At(t).positions
    && w'.tiers.At(t).positions == w.tiers.At(t).positions[key := w'.tiers.At(t).positions[key]]
    && w'.tiers.At(t).positions[key].balance == w.tiers.At(t).BalanceOf(key) - e.gross
  }

  lemma NegativeExit(w: World, a: Action)
    requires Configured(w) && (a.Withdraw? || a.EarlyExit?) && Step(w, a).Ok? && a.amount < 0
    ensures var w' := Step(w, a).value;
            0 < |w'.history| && RaisesUnpaid(w, w', LastEntry(w'))
  {
    var v, key := w.tiers.At(a.tier), Key(a.user, a.asset);
    NegativeFee(v, a.asset, a.amount);
    NegativeBurn(v, key, a.amount);
    hide Vault.Burn, Vault.ExitFee;
  }

  lemma NegativeBurn(v: Vault, key: Key, amount: int)
    requires amount < 0 && v.Burn(key, amount).Ok?
    ensures var v' := v.Burn(key, amount).value;
            && key in v'.positions
            && v'.positions == v.positions[key := v'.positions[key]]
            && v'.positions[key].balance == v.BalanceOf(key) - amount
  {
  }

  lemma NegativeExitUnbacks(w: World, w': World, e: Entry)
    requires Backed(w) && RaisesUnpaid(w, w', e)
    ensures !Backed(w')
  {
    var t, key := e.Tier(), e.Key();
    var v, v' := w.tiers.At(t), w'.tiers.At(t);
    HistoryGrows(w.history, e);
    OwedStore(v, key, v'.positions[key], key.asset);
    assert v'.positions == v.(positions := v.positions[key := v'.positions[key]]).positions;
    assert w.Routed(t, key.asset) == Owed(v, key.asset) + Fees(w.history, t, key.asset);
    assert w'.Routed(t, key.asset) != Owed(v', key.asset) + Fees(w'.history, t, key.asset);
  }

  /** The failing family is not empty: a withdrawal of minus one unit from an open Flex position is granted. */
  lemma MinusOneIsGranted(w: World, user: Address, asset: Address)
    requires Invariant(w) && !w.paused
    requires 0 < w.tiers.flex.BalanceOf(Key(user, asset)) && w.tiers.flex.TotalBalance() <= CAP_LIMIT
    ensures Step(w, Withdraw(user, Flex, asset, -1)).Ok?
    ensures !Backed(Step(w, Withdraw(user, Flex, asset, -1)).value)
  {
    var v, key := w.tiers.At(Flex), Key(user, asset);
    assert PositionBounded(v.positions[key], Flex);
    assert v.cfg == ConfigOf(Flex);
    BurningMinusOne(w, key);
    SignDecidesBacking(w, Withdraw(user, Flex, asset, -1));
  }

  lemma BurningMinusOne(w: World, key: Key)
    requires Invariant(w) && w.tiers.flex.TotalBalance() <= CAP_LIMIT
    requires 0 < w.tiers.flex.BalanceOf(key)
    ensures w.tiers.flex.Burn(key, -1).Ok?
  {
    var v := w.tiers.flex;
    assert v == w.tiers.At(Flex) && key in v.positions;
    assert PositionBounded(v.positions[key], Flex);
    BoundedIsRoomy(w, Flex, key);
    MinusOneBurn(v.BalanceOf(key));
  }

  lemma MinusOneBurn(b: int)
    requires 0 < b
    ensures b * -1 == -b && TruncDiv(b * -1, b) == -1
  {
    assert b / b == 1;
  }

  lemma NegativeFee(v: Vault, asset: Address, amount: int)
    requires amount < 0
    ensures amount < v.ExitFee(asset, amount) <= 0
  {
    if v.cfg.Timelocked? && !v.EmergencyOn(asset) {
      var f := v.cfg.exitFee;
      assert amount * f <= 0 by { MulMonotone(amount, 0, f); }
      MulMonotone(amount, -1, FP_ONE - f);
      assert amount * FP_ONE == amount * f + amount * (FP_ONE - f);
      CancelLess(amount, MulFp(amount, f), FP_ONE);
    }
  }

  // ---------------------------------------------------------------------------
  // Splitting an early exit
  // ---------------------------------------------------------------------------

  /** Fees charged on exiting early in parts, one exit after another. */
  function SplitFees(v: Vault, asset: Address, parts: seq<nat>): int {
    if |parts| == 0 then 0 else
      SplitFees(v, asset, parts[..|parts| - 1]) + v.ExitFee(asset, parts[|parts| - 1])
  }

  lemma {:induction false} SplitFeesArePortions(v: Vault, asset: Address, parts: seq<nat>)
    requires v.cfg.Timelocked? && !v.EmergencyOn(asset)
    ensures SplitFees(v, asset, parts) == TotalPortions(parts, v.cfg.exitFee, FP_ONE)
  {
    if 0 < |parts| {
      SplitFeesArePortions(v, asset, parts[..|parts| - 1]);
    }
  }

  ghost function ExitInParts(v: Vault, key: Key, parts: seq<nat>): Result<Vault> {
    if |parts| == 0 then Ok(v) else
      var before :- ExitInParts(v, key, parts[..|parts| - 1]);
      before.EarlyExit(key, parts[|parts| - 1])
  }

  /** Leaving in k parts is granted only within the balance, and takes off what one exit would. */
  lemma {:induction false} PartsAddUp(v: Vault, key: Key, parts: seq<nat>)
    requires ExitInParts(v, key, parts).Ok?
    ensures var v' := ExitInParts(v, key, parts).value;
            && v'.cfg == v.cfg && v'.emergency == v.emergency
            && v'.BalanceOf(key) == v.BalanceOf(key) - Total(parts)
  {
    if 0 < |parts| {
      var before, last := parts[..|parts| - 1], parts[|parts| - 1];
      PartsAddUp(v, key, before);
      BurnShape(ExitInParts(v, key, before).value, key, last);
    }
  }

  /** It costs no more than one exit of the whole amount, and at most k - 1 units less. */
  lemma {:induction false} SplittingAnExitSavesLittle(v: Vault, key: Key, parts: seq<nat>)
    requires ExitInParts(v, key, parts).Ok? && 0 < |parts|
    ensures ExitInParts(v, key, parts).value.BalanceOf(key) == v.BalanceOf(key) - Total(parts)
    ensures var whole := v.ExitFee(key.asset, Total(parts));
            whole - (|parts| - 1) <= SplitFees(v, key.asset, parts) <= whole
  {
    PartsAddUp(v, key, parts);
    if v.cfg.Timelocked? && !v.EmergencyOn(key.asset) {
      SplitFeesArePortions(v, key.asset, parts);
      PortionsOfParts(parts, v.cfg.exitFee, FP_ONE);
    } else {
      NoFees(v, key.asset, parts);
    }
  }

  lemma {:induction false} NoFees(v: Vault, asset: Address, parts: seq<nat>)
    requires v.cfg.Unlocked? || v.EmergencyOn(asset)
    ensures SplitFees(v, asset, parts) == 0
  {
    if 0 < |parts| {
      NoFees(v, asset, parts[..|parts| - 1]);
    }
  }

  // ---------------------------------------------------------------------------
  // Runs that show the failing cases occur
  // ---------------------------------------------------------------------------

  /** The contracts just after initialisation, with one asset allowed and default caps. */
  function FreshWorld(roles: Roles, asset: Address): World {
    World(Tiers(NewVault(Flex, 0), NewVault(L3, 0), NewVault(L6, 0), NewVault(L12, 0)), map[], map[], false, {asset}, roles, 0, [])
  }

  lemma FreshIsGenesis(roles: Roles, asset: Address)
    ensures Genesis(FreshWorld(roles, asset))
  {
    forall t
      ensures FreshVault(FreshWorld(roles, asset).tiers.At(t), t)
    {
      assert FreshWorld(roles, asset).tiers.At(t) == NewVault(t, 0);
    }
  }

  /** Somebody gets hold of the minimum deposit and deposits it. */
  function FirstDeposit(user: Address, tier: Tier, asset: Address): seq<Action> {
    [WalletChanges(user, asset, MinDeposit(tier)), Deposit(user, tier, asset, MinDeposit(tier))]
  }

  lemma EmptyVaultTakesDeposit(tier: Tier, key: Key)
    ensures var v := NewVault(tier, 0);
            && v.TotalBalance() == 0
            && v.Deposit(key, MinDeposit(tier), 0) == Ok(v.Credited(key, MinDeposit(tier), v.cfg.Mint(MinDeposit(tier)), 0))
  {
    var v := NewVault(tier, 0);
    assert Balances(v.positions) == map[] && Shares(v.positions) == map[];
    MintIsPositive(v.cfg, MinDeposit(tier));
  }

  lemma FirstDepositSucceeds(roles: Roles, user: Address, tier: Tier, asset: Address)
    ensures var r, key := Run(FreshWorld(roles, asset), FirstDeposit(user, tier, asset)), Key(user, asset);
            && !r.paused && r.roles == roles
            && r.VaultHolding(tier, asset) == MinDeposit(tier)
            && r.tiers.At(tier).positions.Keys == {key}
            && r.tiers.At(tier).BalanceOf(key) == MinDeposit(tier)
            && r.tiers.At(tier).TotalBalance() == MinDeposit(tier)
            && r.tiers.At(tier).emergency == {}
            && r.tiers.At(tier).cfg == ConfigOf(tier)
  {
    var w, amount := FreshWorld(roles, asset), MinDeposit(tier);
    RunTwo(w, WalletChanges(user, asset, amount), Deposit(user, tier, asset, amount));
    FundedDepositSucceeds(Apply(w, WalletChanges(user, asset, amount)), user, tier, asset);
    hide Run, DepositStep;
  }

  lemma FundedDepositSucceeds(w: World, user: Address, tier: Tier, asset: Address)
    requires !w.paused && asset in w.allowed && w.now == 0 && w.tiers.At(tier) == NewVault(tier, 0)
    requires Holding(w.tokens, Wallet(user), asset) == MinDeposit(tier) && w.VaultHolding(tier, asset) == 0
    ensures var r, key := DepositStep(w, user, tier, asset, MinDeposit(tier)), Key(user, asset);
            && r.Ok?
            && !r.value.paused && r.value.roles == w.roles
            && r.value.VaultHolding(tier, asset) == MinDeposit(tier)
            && r.value.tiers.At(tier).positions.Keys == {key}
            && r.value.tiers.At(tier).BalanceOf(key) == MinDeposit(tier)
            && r.value.tiers.At(tier).TotalBalance() == MinDeposit(tier)
            && r.value.tiers.At(tier).emergency == {}
            && r.value.tiers.At(tier).cfg == ConfigOf(tier)
  {
    var v, key, amount := NewVault(tier, 0), Key(user, asset), MinDeposit(tier);
    EmptyVaultTakesDeposit(tier, key);
    var p := Position(amount, v.cfg.Mint(amount));
    OwedStore(v, key, p, asset);
    hide Vault.Deposit, Config.Mint;
    assert v.(positions := v.positions[key := p]).positions == v.Credited(key, amount, p.shares, 0).positions;
  }

  lemma RunTwo(w: World, a: Action, b: Action)
    ensures Run(w, [a, b]) == Apply(Apply(w, a), b)
  {
    hide Apply;
    assert [a, b][..1] == [a] && [a][..0] == [];
    assert Run(w, [a]) == Apply(Run(w, []), a);
  }

  lemma RunOneMore(w: World, actions: seq<Action>, a: Action)
    ensures Run(w, actions + [a]) == Apply(Run(w, actions), a)
  {
    hide Apply;
    assert (actions + [a])[..|actions|] == actions;
  }

  /** From initialisation: a deposit into Flex, then a withdrawal of minus one, and the vault is short. */
  lemma ThreeCallsUnback(roles: Roles, user: Address, asset: Address)
    ensures var w := FreshWorld(roles, asset);
            Genesis(w) && !Backed(Run(w, FirstDeposit(user, Flex, asset) + [Withdraw(user, Flex, asset, -1)]))
  {
    var w := FreshWorld(roles, asset);
    var deposit := FirstDeposit(user, Flex, asset);
    FreshIsGenesis(roles, asset);
    FirstDepositSucceeds(roles, user, Flex, asset);
    ReachableInvariant(w, deposit);
    RunOneMore(w, deposit, Withdraw(user, Flex, asset, -1));
    hide Run, Step, Invariant, FreshWorld, Genesis, Backed;
    MinusOneIsGranted(Run(w, deposit), user, asset);
  }

  /** From initialisation: a deposit into a locked tier, then an early exit of it all, and a fee is paid. */
  lemma ThreeCallsPayAFee(roles: Roles, user: Address, tier: Tier, asset: Address)
    requires tier != Flex
    ensures var w := FreshWorld(roles, asset);
            Genesis(w) && SomeCallPays(w, FirstDeposit(user, tier, asset) + [EarlyExit(user, tier, asset, MinDeposit(tier))], tier)
  {
    var w := FreshWorld(roles, asset);
    var deposit, exit := FirstDeposit(user, tier, asset), EarlyExit(user, tier, asset, MinDeposit(tier));
    FreshIsGenesis(roles, asset);
    FirstDepositSucceeds(roles, user, tier, asset);
    WholeExitPaysAFee(Run(w, deposit), user, tier, asset);
    hide Run, PaysFee, Genesis, FreshWorld;
    assert (deposit + [exit])[..2] == deposit && (deposit + [exit])[2] == exit;
    assert PaysFee(Run(w, (deposit + [exit])[..2]), (deposit + [exit])[2], tier);
  }

  lemma WholeExitPaysAFee(w: World, user: Address, tier: Tier, asset: Address)
    requires tier != Flex && !w.paused
    requires w.tiers.At(tier).cfg == ConfigOf(tier) && w.tiers.At(tier).emergency == {}
    requires w.tiers.At(tier).BalanceOf(Key(user, asset)) == MinDeposit(tier) <= w.VaultHolding(tier, asset)
    ensures PaysFee(w, EarlyExit(user, tier, asset, MinDeposit(tier)), tier)
  {
    var v, key := w.tiers.At(tier), Key(user, asset);
    WholeExitIsGranted(v, tier, key);
    FeeWithinAmount(v, asset, MinDeposit(tier));
    hide Vault.EarlyExit, Vault.ExitFee;
    assert tier == L3 || tier == L6 || tier == L12;
  }

  lemma WholeExitIsGranted(v: Vault, tier: Tier, key: Key)
    requires tier != Flex && v.cfg == ConfigOf(tier) && v.BalanceOf(key) == MinDeposit(tier)
    ensures v.EarlyExit(key, MinDeposit(tier)).Ok?
  {
    FeeWithinAmount(v, key.asset, MinDeposit(tier));
    hide Vault.ExitFee;
    assert tier == L3 || tier == L6 || tier == L12;
  }
}
