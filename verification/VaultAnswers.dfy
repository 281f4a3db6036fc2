/**
 What each call of the router answers in every reachable state: exactly when it is granted,
 exactly which refusal it gives otherwise, and which way the switches turn the next answer.
 */
module VaultAnswers {
  import opened Common
  import opened FloorArithmetic
  import opened MapSums
  import opened TierVaults
  import opened TokenLedger
  import opened VaultEvents
  import opened VaultRouter
  import opened VaultInvariants
  import opened VaultTheorems

  /** Some run from fresh contracts leads here. */
  ghost predicate Reachable(w: World) {
    exists start: World, actions: seq<Action> ::
      Genesis(start) && (forall a :: a in actions ==> NonNegative(a)) && w == Run(start, actions)
  }

  lemma ReachableIsInvariant(w: World)
    requires Reachable(w)
    ensures Invariant(w)
  {
    var start: World, actions: seq<Action> :|
      Genesis(start) && (forall a :: a in actions ==> NonNegative(a)) && w == Run(start, actions);
    ReachableInvariant(start, actions);
  }

  /** The tier's terms in its own units: percentages, whole USDC, and days of 17,280 ledgers at 5 s. */
  lemma TierTerms(amount: nat)
    ensures ConfigOf(Flex).Mint(amount) == amount && ConfigOf(L3).Mint(amount) == amount * 105 / 100
    ensures ConfigOf(L6).Mint(amount) == amount * 115 / 100 && ConfigOf(L12).Mint(amount) == amount * 130 / 100
    ensures MulFp(amount, ConfigOf(Flex).ExitRate()) == 0 && MulFp(amount, ConfigOf(L3).ExitRate()) == amount * 50 / 10_000
    ensures MulFp(amount, ConfigOf(L6).ExitRate()) == amount * 125 / 10_000
    ensures MulFp(amount, ConfigOf(L12).ExitRate()) == amount * 250 / 10_000
    ensures MinDeposit(Flex) == 1 * FP_ONE && MinDeposit(L3) == 50 * FP_ONE
    ensures MinDeposit(L6) == 100 * FP_ONE && MinDeposit(L12) == 250 * FP_ONE
    ensures forall t :: ConfigOf(t).minDeposit == MinDeposit(t)
    ensures ConfigOf(L3).LockLength() == 45 * 17_280 && ConfigOf(L6).LockLength() == 90 * 17_280
    ensures ConfigOf(L12).LockLength() == 180 * 17_280
    ensures DEFAULT_MAX_TVL == 1_000_000 * FP_ONE
  {
    ScaleDown(amount, 105, 100, 100_000);
    ScaleDown(amount, 115, 100, 100_000);
    ScaleDown(amount, 130, 100, 100_000);
    ScaleDown(amount, 50, 10_000, 1_000);
    ScaleDown(amount, 125, 10_000, 1_000);
    ScaleDown(amount, 250, 10_000, 1_000);
    MulFpBounds(amount, 0);
  }

  lemma ScaleDown(a: nat, num: nat, den: Positive, k: Positive)
    requires den * k == FP_ONE
    ensures MulFp(a, num * k) == a * num / den
  {
    assert a * (num * k) == (a * num) * k;
    assert 0 <= a * num;
    CommonFactor(a * num, den, k);
  }

  lemma CommonFactor(x: nat, den: Positive, k: Positive)
    ensures 0 < den * k && TruncDiv(x * k, den * k) == x / den
  {
    MulMonotone(1, den, k);
    MulMonotone(0, x, k);
    var p, q := x / den, TruncDiv(x * k, den * k);
    FloorBounds(x, den);
    Regroup(p, den, k);
    Regroup(p + 1, den, k);
    MulMonotone(p * den, x, k);
    MulMonotone(x + 1, (p + 1) * den, k);
    assert (x + 1) * k == x * k + k;
    CancelLess(p, q + 1, den * k);
    CancelLess(q, p + 1, den * k);
  }

  lemma Regroup(p: int, den: int, k: int)
    ensures p * (den * k) == (p * den) * k
  {
  }

  // ---------------------------------------------------------------------------
  // Exits
  // ---------------------------------------------------------------------------

  /** Nothing holds this position back: no lock in Flex, the asset's flag in L3, or the lock has run out. */
  ghost predicate Unlocked(w: World, tier: Tier, key: Key) {
    tier == Flex || (tier == L3 && key.asset in w.tiers.l3.emergency) || w.tiers.At(tier).LockOf(key) <= w.now
  }

  /** With room and without a sign, a burn is refused exactly if it asks for too much. */
  lemma BurnAnswers(v: Vault, key: Key, amount: nat)
    requires Roomy(v, key)
    ensures v.Burn(key, amount) == Err(AmountExceedsBalance) <==> v.BalanceOf(key) < amount
    ensures v.Burn(key, amount).Ok? <==> amount <= v.BalanceOf(key)
  {
    BurnNeverTraps(v, key, amount);
  }

  lemma VaultWithdrawAnswers(v: Vault, key: Key, amount: nat, now: nat)
    requires Roomy(v, key) && v.BalanceOf(key) <= v.SharesOf(key)
    ensures var r, b := v.Withdraw(key, amount, now), v.BalanceOf(key);
            var held := v.cfg.Timelocked? && !(v.cfg.hasEmergency && key.asset in v.emergency) && now < v.LockOf(key);
            var empty := v.cfg.Unlocked? && b == 0;
            && (r == Err(EmptyPosition) <==> empty)
            && (r == Err(LockNotExpired) <==> held)
            && (r == Err(AmountExceedsBalance) <==> !empty && !held && b < amount)
            && (r.Ok? <==> !empty && !held && amount <= b)
  {
    BurnAnswers(v, key, amount);
    BurnErrors(v, key, amount);
    hide Vault.Burn;
  }

  lemma VaultEarlyExitAnswers(v: Vault, key: Key, amount: nat)
    requires Roomy(v, key) && v.BalanceOf(key) <= v.SharesOf(key)
    ensures var r, b := v.EarlyExit(key, amount), v.BalanceOf(key);
            var empty := v.cfg.Unlocked? && b == 0;
            && (r == Err(EmptyPosition) <==> empty)
            && (r == Err(AmountExceedsBalance) <==> !empty && b < amount)
            && (r.Ok? <==> !empty && amount <= b)
  {
    ExitsNeverTrap(v, key, amount, 0);
    BurnAnswers(v, key, amount);
    BurnErrors(v, key, amount);
    hide Vault.Burn, Vault.ExitFee;
  }

  lemma BurnErrors(v: Vault, key: Key, amount: int)
    ensures v.Burn(key, amount).Err? ==> v.Burn(key, amount).error in {AmountExceedsBalance, Trap}
  {
  }

  /** A granted exit is paid: the only way left to fail is a vault short of tokens, and none is. */
  lemma ExitStepAnswers(w: World, a: Action)
    requires Invariant(w) && NonNegative(a) && (a.Withdraw? || a.EarlyExit?) && !w.paused
    ensures var v, key := w.tiers.At(a.tier), Key(a.user, a.asset);
            var booked := if a.Withdraw? then v.Withdraw(key, a.amount, w.now) else v.EarlyExit(key, a.amount);
            if booked.Ok? then Step(w, a).Ok? else Step(w, a) == Err(booked.error)
  {
    GrantedExitIsCovered(w, a);
    hide Vault.Withdraw, Vault.EarlyExit, Vault.ExitPayout;
  }

  /** Facts about one position of a reachable state that the answers rest on. */
  lemma PositionFacts(w: World, tier: Tier, key: Key)
    requires Reachable(w) && w.tiers.At(tier).TotalBalance() <= CAP_LIMIT
    ensures Invariant(w) && w.tiers.At(tier).cfg == ConfigOf(tier)
    ensures Roomy(w.tiers.At(tier), key) && w.tiers.At(tier).BalanceOf(key) <= w.tiers.At(tier).SharesOf(key)
  {
    ReachableIsInvariant(w);
    BoundedIsRoomy(w, tier, key);
    if key in w.tiers.At(tier).positions {
      assert PositionBounded(w.tiers.At(tier).positions[key], tier);
    }
  }

  /** A withdrawal is granted if and only if the router runs, the position is unlocked and covers it. */
  lemma WithdrawalAnswers(w: World, user: Address, tier: Tier, asset: Address, amount: nat)
    requires Reachable(w) && w.tiers.At(tier).TotalBalance() <= CAP_LIMIT
    ensures var r, key := Step(w, Withdraw(user, tier, asset, amount)), Key(user, asset);
            var b, open := w.tiers.At(tier).BalanceOf(key), Unlocked(w, tier, key);
            var empty := tier == Flex && b == 0;
            && (r == Err(Paused) <==> w.paused)
            && (r == Err(EmptyPosition) <==> !w.paused && empty)
            && (r == Err(LockNotExpired) <==> !w.paused && !open)
            && (r == Err(AmountExceedsBalance) <==> !w.paused && !empty && open && b < amount)
            && (r.Ok? <==> !w.paused && !empty && open && amount <= b)
  {
    hide Step, Vault.Withdraw, Invariant, Roomy, Reachable;
    var key := Key(user, asset);
    PositionFacts(w, tier, key);
    VaultWithdrawAnswers(w.tiers.At(tier), key, amount, w.now);
    if w.paused {
      PausedMove(w, Withdraw(user, tier, asset, amount));
    } else {
      ExitStepAnswers(w, Withdraw(user, tier, asset, amount));
      WithdrawErrors(w.tiers.At(tier), key, amount, w.now);
    }
  }

  lemma PausedMove(w: World, a: Action)
    requires IsMove(a) && w.paused
    ensures Step(w, a) == Err(Paused)
  {
  }

  lemma WithdrawErrors(v: Vault, key: Key, amount: int, now: nat)
    ensures v.Withdraw(key, amount, now) != Err(Paused)
    ensures v.EarlyExit(key, amount) != Err(Paused)
  {
    BurnErrors(v, key, amount);
    hide Vault.Burn, Vault.ExitPayout;
  }

  /** An early exit is granted whatever the lock. */
  lemma EarlyExitAnswers(w: World, user: Address, tier: Tier, asset: Address, amount: nat)
    requires Reachable(w) && w.tiers.At(tier).TotalBalance() <= CAP_LIMIT
    ensures var r, b := Step(w, EarlyExit(user, tier, asset, amount)), w.tiers.At(tier).BalanceOf(Key(user, asset));
            var empty := tier == Flex && b == 0;
            && (r == Err(Paused) <==> w.paused)
            && (r == Err(EmptyPosition) <==> !w.paused && empty)
            && (r == Err(AmountExceedsBalance) <==> !w.paused && !empty && b < amount)
            && (r.Ok? <==> !w.paused && !empty && amount <= b)
  {
    hide Step, Vault.EarlyExit, Invariant, Roomy, Reachable;
    var key := Key(user, asset);
    PositionFacts(w, tier, key);
    VaultEarlyExitAnswers(w.tiers.At(tier), key, amount);
    if w.paused {
      PausedMove(w, EarlyExit(user, tier, asset, amount));
    } else {
      ExitStepAnswers(w, EarlyExit(user, tier, asset, amount));
      WithdrawErrors(w.tiers.At(tier), key, amount, w.now);
    }
  }

  /** Relocking needs a matured lock and room in the ledger numbers; neither pause nor balance matters. */
  lemma RelockAnswers(w: World, user: Address, tier: Tier, asset: Address)
    requires Configured(w)
    ensures var r, key := Step(w, Relock(user, tier, asset)), Key(user, asset);
            var matured, until := w.tiers.At(tier).LockOf(key) <= w.now, w.now + ConfigOf(tier).LockLength();
            && (r == Err(NotSupported) <==> tier == Flex)
            && (r == Err(NotYetMatured) <==> tier != Flex && !matured)
            && (r == Err(Trap) <==> tier != Flex && matured && U32_MAX < until)
            && (r.Ok? <==> tier != Flex && matured && until <= U32_MAX)
            && (r.Ok? ==> r.value.tiers.At(tier).LockOf(key) == until)
  {
    assert w.tiers.At(tier).cfg == ConfigOf(tier);
  }

  // ---------------------------------------------------------------------------
  // Deposits
  // ---------------------------------------------------------------------------

  lemma FlexSharesAreBalances(w: World)
    requires SharesBounded(w)
    ensures w.tiers.flex.TotalShares() == w.tiers.flex.TotalBalance()
    ensures forall key :: w.tiers.flex.SharesOf(key) == w.tiers.flex.BalanceOf(key)
  {
    var v := w.tiers.flex;
    assert v == w.tiers.At(Flex);
    forall k | k in v.positions
      ensures v.positions[k].shares == v.positions[k].balance
    {
      assert PositionBounded(v.positions[k], Flex);
    }
    assert Shares(v.positions) == Balances(v.positions);
  }

  /** The running total would overflow, or the ledger number that the deposit writes. */
  ghost predicate DepositOverflows(w: World, tier: Tier, amount: int) {
    !InI128(w.tiers.At(tier).TotalBalance() + amount) || U32_MAX < w.now + ConfigOf(tier).Horizon()
  }

  ghost predicate OverCap(w: World, tier: Tier, amount: int) {
    && tier != Flex
    && InI128(w.tiers.At(tier).TotalBalance() + amount)
    && w.tiers.At(tier).cap < w.tiers.At(tier).TotalBalance() + amount
  }

  lemma VaultDepositAnswers(w: World, tier: Tier, key: Key, amount: int)
    requires Invariant(w) && MinDeposit(tier) <= amount
    requires tier != Flex ==> w.tiers.At(tier).cap <= CAP_LIMIT
    ensures var r := w.tiers.At(tier).Deposit(key, amount, w.now);
            && (r == Err(DepositCapExceeded) <==> OverCap(w, tier, amount))
            && (r == Err(Trap) <==> !OverCap(w, tier, amount) && DepositOverflows(w, tier, amount))
            && (r.Ok? <==> !OverCap(w, tier, amount) && !DepositOverflows(w, tier, amount))
            && (r.Err? ==> r.error in {DepositCapExceeded, Trap})
  {
    var v := w.tiers.At(tier);
    assert v.cfg == ConfigOf(tier);
    if tier == Flex {
      FlexDepositAnswers(w, key, amount);
    } else {
      LockedDepositAnswers(w, tier, key, amount);
    }
    hide Vault.Deposit, Invariant;
  }

  lemma FlexDepositAnswers(w: World, key: Key, amount: int)
    requires SharesBounded(w) && w.tiers.flex.cfg == ConfigOf(Flex) && MinDeposit(Flex) <= amount
    ensures var r := w.tiers.flex.Deposit(key, amount, w.now);
            && (r == Err(Trap) <==> DepositOverflows(w, Flex, amount))
            && (r.Ok? <==> !DepositOverflows(w, Flex, amount))
  {
    var v := w.tiers.flex;
    OwedCoversPosition(v, key);
    FlexSharesAreBalances(w);
    hide Vault.TotalBalance, Vault.TotalShares, Vault.BalanceOf, Vault.SharesOf;
  }

  lemma LockedDepositAnswers(w: World, tier: Tier, key: Key, amount: int)
    requires SharesBounded(w) && tier != Flex && w.tiers.At(tier).cfg == ConfigOf(tier) && MinDeposit(tier) <= amount
    requires w.tiers.At(tier).cap <= CAP_LIMIT
    ensures var r := w.tiers.At(tier).Deposit(key, amount, w.now);
            && (r == Err(DepositCapExceeded) <==> OverCap(w, tier, amount))
            && (r == Err(Trap) <==> !OverCap(w, tier, amount) && DepositOverflows(w, tier, amount))
            && (r.Ok? <==> !OverCap(w, tier, amount) && !DepositOverflows(w, tier, amount))
            && (r.Err? ==> r.error in {DepositCapExceeded, Trap})
  {
    var v := w.tiers.At(tier);
    assert v.cfg.minDeposit == MinDeposit(tier) && v.cfg.Horizon() == v.cfg.LockLength();
    if InI128(v.TotalBalance() + amount) && v.TotalBalance() + amount <= v.cap {
      BoundedIsRoomy(w, tier, key);
      DepositTrapsOnlyOnLedger(v, key, amount, w.now);
      FlooredDepositErrors(v, key, amount, w.now);
      hide Vault.Deposit;
    }
  }

  /** Past the minimum and the cap only an overflow is left. */
  lemma FlooredDepositErrors(v: Vault, key: Key, amount: int, now: nat)
    requires v.cfg.minDeposit <= amount && (v.cfg.Timelocked? ==> v.TotalBalance() + amount <= v.cap)
    ensures v.Deposit(key, amount, now).Err? ==> v.Deposit(key, amount, now) == Err(Trap)
  {
    hide Vault.Credited, Config.Mint;
  }

  /** A deposit is granted if and only if nothing of a short list stands against it. */
  lemma DepositAnswers(w: World, user: Address, tier: Tier, asset: Address, amount: int)
    requires Reachable(w) && (tier != Flex ==> w.tiers.At(tier).cap <= CAP_LIMIT)
    ensures var r := Step(w, Deposit(user, tier, asset, amount));
            var listed, enough := asset in w.allowed, MinDeposit(tier) <= amount;
            var funded := amount <= Holding(w.tokens, Wallet(user), asset);
            var asked := !w.paused && listed && enough && funded;
            && (r == Err(Paused) <==> w.paused)
            && (r == Err(AssetNotAllowed) <==> !w.paused && !listed)
            && (r == Err(BelowMinDeposit) <==> !w.paused && listed && !enough)
            && (r == Err(InsufficientFunds) <==> !w.paused && listed && enough && !funded)
            && (r == Err(DepositCapExceeded) <==> asked && OverCap(w, tier, amount))
            && (r == Err(Trap) <==> asked && !OverCap(w, tier, amount) && DepositOverflows(w, tier, amount))
            && (r.Ok? <==> asked && !OverCap(w, tier, amount) && !DepositOverflows(w, tier, amount))
  {
    ReachableIsInvariant(w);
    if MinDeposit(tier) <= amount {
      VaultDepositAnswers(w, tier, Key(user, asset), amount);
    }
    hide Vault.Deposit, OverCap, DepositOverflows, Reachable, Invariant;
  }

  /** What a granted deposit does: one position, its lock, and the tokens of depositor and vault. */
  lemma DepositCredits(w: World, user: Address, tier: Tier, asset: Address, amount: int)
    requires Configured(w) && Step(w, Deposit(user, tier, asset, amount)).Ok?
    ensures var w', key := Step(w, Deposit(user, tier, asset, amount)).value, Key(user, asset);
            var v, v' := w.tiers.At(tier), w'.tiers.At(tier);
            var minted := v'.SharesOf(key) - v.SharesOf(key);
            && v'.BalanceOf(key) == v.BalanceOf(key) + amount
            && minted * FP_ONE <= amount * ConfigOf(tier).Multiplier() < (minted + 1) * FP_ONE
            && (tier != Flex ==> v'.LockOf(key) == w.now + ConfigOf(tier).LockLength())
            && Holding(w'.tokens, Wallet(user), asset) == Holding(w.tokens, Wallet(user), asset) - amount
            && w'.VaultHolding(tier, asset) == w.VaultHolding(tier, asset) + amount
  {
    var v := w.tiers.At(tier);
    assert v.cfg == ConfigOf(tier);
    MulFpBounds(amount, v.cfg.Multiplier());
    MulFpOne(amount);
    hide MulFp;
  }

  // ---------------------------------------------------------------------------
  // Switches
  // ---------------------------------------------------------------------------

  /** Every switch obeys its own role and nobody else; a refused call changes nothing. */
  lemma SwitchesObeyTheirRole(w: World, a: Action)
    requires Configured(w) && (a.SetPaused? || a.SetMaxTvl? || a.SetEmergency? || a.AllowAsset?)
    ensures var role := if a.SetMaxTvl? then w.roles.governance else if a.AllowAsset? then w.roles.admin else w.roles.guardian;
            var supported := (a.SetMaxTvl? ==> a.tier != Flex) && (a.SetEmergency? ==> a.tier == L3);
            && (Step(w, a) == Err(Unauthorized) <==> a.caller != role)
            && (Step(w, a) == Err(NotSupported) <==> a.caller == role && !supported)
            && (Step(w, a).Ok? <==> a.caller == role && supported)
            && (Step(w, a).Err? ==> Apply(w, a) == w)
  {
    if a.SetMaxTvl? || a.SetEmergency? {
      assert w.tiers.At(a.tier).cfg == ConfigOf(a.tier);
    }
  }

  /** After `pause` every move is refused as paused, after `unpause` none is. Relocking never is. */
  lemma PauseDecides(w: World, halt: bool, a: Action)
    requires IsMove(a)
    ensures var w' := Apply(w, SetPaused(w.roles.guardian, halt));
            Step(w', a) == Err(Paused) <==> halt
  {
    var w' := Apply(w, SetPaused(w.roles.guardian, halt));
    assert w'.paused == halt;
    if !halt {
      NotPaused(w', a);
    }
  }

  lemma NotPaused(w: World, a: Action)
    requires IsMove(a) && !w.paused
    ensures Step(w, a) != Err(Paused)
  {
    var v, key := w.tiers.At(a.tier), Key(a.user, a.asset);
    WithdrawErrors(v, key, a.amount, w.now);
    hide Vault.Withdraw, Vault.EarlyExit, Vault.ExitPayout, Vault.Credited;
  }

  /** Listing decides about deposits of that asset, and of no other. */
  lemma ListingDecides(w: World, asset: Address, allow: bool, user: Address, tier: Tier, other: Address, amount: int)
    requires !w.paused
    ensures var w' := Apply(w, AllowAsset(w.roles.admin, asset, allow));
            Step(w', Deposit(user, tier, other, amount)) == Err(AssetNotAllowed)
            <==> if other == asset then !allow else other !in w.allowed
  {
    hide Vault.Credited;
  }

  /** A new cap decides about the next deposit, whatever the cap was before. */
  lemma CapDecides(w: World, tier: Tier, newCap: int, user: Address, asset: Address, amount: int)
    requires Reachable(w) && tier != Flex && newCap <= CAP_LIMIT
    requires !w.paused && asset in w.allowed && MinDeposit(tier) <= amount <= Holding(w.tokens, Wallet(user), asset)
    requires InI128(w.tiers.At(tier).TotalBalance() + amount) && w.now + ConfigOf(tier).LockLength() <= U32_MAX
    ensures var r := Step(Apply(w, SetMaxTvl(w.roles.governance, tier, newCap)), Deposit(user, tier, asset, amount));
            && (r.Ok? <==> w.tiers.At(tier).TotalBalance() + amount <= newCap)
            && (r.Err? ==> r == Err(DepositCapExceeded))
  {
    ReachableIsInvariant(w);
    assert w.tiers.At(tier).cfg == ConfigOf(tier);
    var switch := SetMaxTvl(w.roles.governance, tier, newCap);
    var w' := Apply(w, switch);
    InvariantStep(w, switch);
    hide Invariant, Reachable;
    VaultDepositAnswers(w', tier, Key(user, asset), amount);
    hide Vault.Deposit;
  }

  /** The guardian's flag on an asset opens its locked L3 positions, and clearing it closes them again. */
  lemma EmergencyDecides(w: World, user: Address, asset: Address, active: bool, amount: nat)
    requires Reachable(w) && !w.paused && w.tiers.l3.TotalBalance() <= CAP_LIMIT
    requires w.now < w.tiers.l3.LockOf(Key(user, asset)) && amount <= w.tiers.l3.BalanceOf(Key(user, asset))
    ensures var w' := Apply(w, SetEmergency(w.roles.guardian, L3, asset, active));
            && (Step(w', Withdraw(user, L3, asset, amount)).Ok? <==> active)
            && (Step(w', Withdraw(user, L3, asset, amount)) == Err(LockNotExpired) <==> !active)
            && CallFee(w', EarlyExit(user, L3, asset, amount)) == if active then 0 else amount * 50 / 10_000
  {
    var switch := SetEmergency(w.roles.guardian, L3, asset, active);
    var w', key := Apply(w, switch), Key(user, asset);
    assert w.tiers.At(L3) == w.tiers.l3;
    PositionFacts(w, L3, key);
    InvariantStep(w, switch);
    TierTerms(amount);
    EmergencyFacts(w, asset, active, key);
    hide Invariant, Reachable, Apply;
    VaultWithdrawAnswers(w'.tiers.At(L3), key, amount, w'.now);
    ExitStepAnswers(w', Withdraw(user, L3, asset, amount));
    hide Step, Vault.Withdraw, Roomy;
  }

  lemma EmergencyFacts(w: World, asset: Address, active: bool, key: Key)
    requires Invariant(w) && Roomy(w.tiers.l3, key)
    ensures var w' := Apply(w, SetEmergency(w.roles.guardian, L3, asset, active));
            && Step(w, SetEmergency(w.roles.guardian, L3, asset, active)).Ok?
            && !w.paused == !w'.paused && w'.now == w.now
            && w'.tiers.At(L3).cfg == ConfigOf(L3) && Roomy(w'.tiers.At(L3), key)
            && w'.tiers.At(L3).positions == w.tiers.l3.positions && w'.tiers.At(L3).locks == w.tiers.l3.locks
            && (asset in w'.tiers.At(L3).emergency <==> active)
  {
    assert w.tiers.At(L3).cfg == ConfigOf(L3);
  }
}
