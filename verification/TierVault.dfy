/**
 The four tier vaults as one class with four configurations.

 `Vault` is the abstract ledger: one position per (user, asset), and totals that are
 defined as sums over the positions. `TierVault` is the contract: separate balance,
 share and lock entries, and two running totals. Every method of the class refines the
 function of the same name on the ledger.
 */
module TierVaults {
  import opened Common
  import opened FloorArithmetic
  import opened MapSums

  datatype Key = Key(user: Address, asset: Address)

  datatype Position = Position(balance: Positive, shares: nat)

  datatype Config =
    | Unlocked(minDeposit: int)
    | Timelocked(minDeposit: int, multiplier: int, exitFee: int, lockDuration: nat, hasEmergency: bool)
  {
    predicate WellFormed() {
      && 1 <= minDeposit
      && (Timelocked? ==>
            && FP_ONE <= multiplier <= 2 * FP_ONE
            && 0 <= exitFee < FP_ONE
            && 1 <= lockDuration)
    }

    function Multiplier(): int {
      if Timelocked? then multiplier else FP_ONE
    }

    /** Shares for a deposit. Flex copies the amount, so it has no product that could overflow. */
    function Mint(amount: int): int {
      if Timelocked? then MulFp(amount, multiplier) else amount
    }

    predicate MintTraps(amount: int) {
      Timelocked? && !InI128(amount * multiplier)
    }

    /** The exit fee as a fixed-point factor; Flex has none. */
    function ExitRate(): int {
      if Timelocked? then exitFee else 0
    }

    function LockLength(): nat {
      if Timelocked? then lockDuration else 0
    }

    /** How far past the current ledger a deposit writes: the lock, or the next-ledger checkpoint. */
    function Horizon(): nat {
      if Timelocked? then lockDuration else 1
    }
  }

  type TierConfig = c: Config | c.WellFormed() witness Unlocked(1)

  const DEFAULT_MAX_TVL: int := 10_000_000_000_000

  function ConfigOf(tier: Tier): TierConfig {
    match tier
    case Flex => Unlocked(10_000_000)
    case L3 => Timelocked(500_000_000, 10_500_000, 50_000, 777_600, true)
    case L6 => Timelocked(1_000_000_000, 11_500_000, 125_000, 1_555_200, false)
    case L12 => Timelocked(2_500_000_000, 13_000_000, 250_000, 3_110_400, false)
  }

  // ---------------------------------------------------------------------------
  // The abstract ledger
  // ---------------------------------------------------------------------------

  ghost function Balances(positions: map<Key, Position>): map<Key, int> {
    map k | k in positions :: positions[k].balance
  }

  ghost function Shares(positions: map<Key, Position>): map<Key, int> {
    map k | k in positions :: positions[k].shares
  }

  datatype Vault = Vault(
    cfg: TierConfig,
    positions: map<Key, Position>,
    locks: map<Key, nat>,
    cap: int,
    emergency: set<Address>)
  {
    function BalanceOf(key: Key): nat {
      if key in positions then positions[key].balance else 0
    }

    function SharesOf(key: Key): nat {
      if key in positions then positions[key].shares else 0
    }

    function LockOf(key: Key): nat {
      if key in locks then locks[key] else 0
    }

    /** Only L3 has the per-asset flag that lifts lock and fee. */
    predicate EmergencyOn(asset: Address) {
      cfg.Timelocked? && cfg.hasEmergency && asset in emergency
    }

    predicate Empty(key: Key) {
      SharesOf(key) == 0 || BalanceOf(key) == 0
    }

    ghost function TotalBalance(): int {
      Sum(Balances(positions))
    }

    ghost function TotalShares(): int {
      Sum(Shares(positions))
    }

    /** The shares a deposit would mint, or why it is refused. */
    ghost function DepositShares(key: Key, amount: int, now: nat): (r: Result<int>)
      ensures r.Ok? ==> 0 < amount && amount <= r.value <= 2 * amount
    {
      if amount < cfg.minDeposit then Err(BelowMinDeposit)
      else if !InI128(TotalBalance() + amount) then Err(Trap)
      else if cfg.Timelocked? && cap < TotalBalance() + amount then Err(DepositCapExceeded)
      else if cfg.MintTraps(amount) then Err(Trap)
      else
        MintIsPositive(cfg, amount);
        var minted := cfg.Mint(amount);
        if !InI128(BalanceOf(key) + amount) || !InI128(SharesOf(key) + minted) || !InI128(TotalShares() + minted) then Err(Trap)
        else if U32_MAX < now + cfg.Horizon() then Err(Trap)
        else Ok(minted)
    }

    function Credited(key: Key, amount: Positive, minted: nat, now: nat): Vault {
      this.(positions := positions[key := Position(BalanceOf(key) + amount, SharesOf(key) + minted)],
            locks := if cfg.Timelocked? then locks[key := now + cfg.lockDuration] else locks)
    }

    ghost function Deposit(key: Key, amount: int, now: nat): Result<Vault> {
      var minted :- DepositShares(key, amount, now);
      Ok(Credited(key, amount, minted, now))
    }

    /** Takes `amount` out of a position: all of it, or a part with its floored share of the shares. */
    ghost function Burn(key: Key, amount: int): Result<Vault> {
      var b, s := BalanceOf(key), SharesOf(key);
      if b < amount then Err(AmountExceedsBalance)
      else if b == amount then Ok(this.(positions := positions - {key}, locks := locks - {key}))
      else if b == 0 || !InI128(s * amount) then Err(Trap)
      else
        BurnWithinShares(b, s, amount);
        var burned := TruncDiv(s * amount, b);
        if InI128(b - amount) && InI128(s - burned)
           && InI128(TotalShares() - burned) && InI128(TotalBalance() - amount)
        then Ok(this.(positions := positions[key := Position(b - amount, s - burned)]))
        else Err(Trap)
    }

    /** The payout of a withdrawal is the amount itself. */
    ghost function Withdraw(key: Key, amount: int, now: nat): Result<Vault> {
      if cfg.Unlocked? && Empty(key) then Err(EmptyPosition)
      else if cfg.Timelocked? && !EmergencyOn(key.asset) && now < LockOf(key) then Err(LockNotExpired)
      else Burn(key, amount)
    }

    /** The fee on leaving early; none in Flex or under the asset's emergency flag. */
    function ExitFee(asset: Address, amount: int): int {
      if cfg.Timelocked? && !EmergencyOn(asset) then MulFp(amount, cfg.exitFee) else 0
    }

    function ExitPayout(asset: Address, amount: int): int {
      amount - ExitFee(asset, amount)
    }

    ghost function EarlyExit(key: Key, amount: int): Result<Vault> {
      if cfg.Unlocked? && Empty(key) then Err(EmptyPosition)
      else if BalanceOf(key) < amount then Err(AmountExceedsBalance)
      else if cfg.Timelocked? && !EmergencyOn(key.asset)
              && (!InI128(amount * cfg.exitFee) || !InI128(ExitPayout(key.asset, amount)))
      then Err(Trap)
      else Burn(key, amount)
    }

    function Relock(key: Key, now: nat): Result<Vault> {
      if cfg.Unlocked? then Err(NotSupported)
      else if now < LockOf(key) then Err(NotYetMatured)
      else if U32_MAX < now + cfg.lockDuration then Err(Trap)
      else Ok(this.(locks := locks[key := now + cfg.lockDuration]))
    }

    function SetCap(newCap: int): Result<Vault> {
      if cfg.Unlocked? then Err(NotSupported) else Ok(this.(cap := newCap))
    }

    function SetEmergency(asset: Address, active: bool): Result<Vault> {
      if cfg.Timelocked? && cfg.hasEmergency then
        Ok(this.(emergency := if active then emergency + {asset} else emergency - {asset}))
      else Err(NotSupported)
    }
  }

  lemma MintIsPositive(cfg: TierConfig, amount: int)
    requires 1 <= amount
    ensures amount <= cfg.Mint(amount) <= 2 * amount
  {
    if cfg.Timelocked? {
      MulFpBounds(amount, cfg.multiplier);
    }
  }

  lemma BurnWithinShares(balance: Positive, shares: nat, amount: int)
    requires amount < balance
    ensures TruncDiv(shares * amount, balance) <= shares
  {
    if 0 <= amount {
      assert 0 <= shares * amount;
      MulMonotone(amount, balance, shares);
      CancelAtMost(TruncDiv(shares * amount, balance), shares, balance);
    } else {
      MulMonotone(amount, 0, shares);
      assert shares * amount <= 0;
    }
  }

  // ---------------------------------------------------------------------------
  // Share arithmetic of one position
  // ---------------------------------------------------------------------------

  /** What is left after a floored burn, against the exact proportion. */
  lemma BurnProportion(balance: Positive, shares: nat, amount: nat)
    requires amount < balance
    ensures var left := shares - TruncDiv(shares * amount, balance);
            shares * (balance - amount) <= left * balance
            && (left - 1) * balance < shares * (balance - amount)
  {
    var q := TruncDiv(shares * amount, balance);
    assert 0 <= shares * amount;
    assert shares * (balance - amount) == shares * balance - shares * amount;
    assert (shares - q) * balance == shares * balance - q * balance;
    assert (shares - q - 1) * balance == shares * balance - (q + 1) * balance;
  }

  /** A partial burn keeps the shares between the balance and twice the balance. */
  lemma BurnKeepsShareBounds(balance: Positive, shares: nat, amount: nat)
    requires amount < balance && balance <= shares <= 2 * balance
    ensures var left := shares - TruncDiv(shares * amount, balance);
            balance - amount <= left <= 2 * (balance - amount)
  {
    var rest := balance - amount;
    var left := shares - TruncDiv(shares * amount, balance);
    BurnProportion(balance, shares, amount);
    MulMonotone(balance, shares, rest);
    assert rest * balance == balance * rest;
    CancelAtMost(rest, left, balance);
    MulMonotone(shares, 2 * balance, rest);
    assert 2 * balance * rest == (2 * rest) * balance;
    CancelLess(left - 1, 2 * rest, balance);
  }

  /** In Flex, where shares equal the balance, a burn takes exactly the amount. */
  lemma BurnIsExactAtPar(balance: Positive, amount: nat)
    requires amount < balance
    ensures TruncDiv(balance * amount, balance) == amount
  {
    var q := TruncDiv(balance * amount, balance);
    assert 0 <= balance * amount;
    assert balance * amount == amount * balance;
    CancelAtMost(q, amount, balance);
    CancelLess(amount, q + 1, balance);
  }

  /** How far the shares of a position may lie from balance times multiplier, in floors taken. */
  predicate WithinDrift(p: Position, multiplier: int, deposits: int, burns: int) {
    p.balance * multiplier - deposits * FP_ONE < p.shares * FP_ONE <= p.balance * multiplier + burns * FP_ONE
  }

  /** A deposit adds one floor below, a first deposit being the case of an empty position. */
  lemma DepositDrift(balance: nat, shares: nat, amount: Positive, cfg: TierConfig, deposits: nat, burns: nat)
    requires balance * cfg.Multiplier() - deposits * FP_ONE <= shares * FP_ONE
    requires shares * FP_ONE <= balance * cfg.Multiplier() + burns * FP_ONE
    ensures 0 <= cfg.Mint(amount)
    ensures WithinDrift(Position(balance + amount, shares + cfg.Mint(amount)), cfg.Multiplier(), deposits + 1, burns)
  {
    MulFpBounds(amount, cfg.Multiplier());
    MulFpOne(amount);
    assert (balance + amount) * cfg.Multiplier() == balance * cfg.Multiplier() + amount * cfg.Multiplier();
  }

  /** A partial burn adds one floor above and none below. */
  lemma BurnDrift(p: Position, amount: nat, multiplier: int, deposits: nat, burns: nat)
    requires amount < p.balance
    requires WithinDrift(p, multiplier, deposits, burns)
    ensures TruncDiv(p.shares * amount, p.balance) <= p.shares
    ensures WithinDrift(Position(p.balance - amount, p.shares - TruncDiv(p.shares * amount, p.balance)),
                        multiplier, deposits, burns + 1)
  {
    var b, s, rest := p.balance, p.shares, p.balance - amount;
    BurnWithinShares(b, s, amount);
    BurnProportion(b, s, amount);
    var left := s - TruncDiv(s * amount, b);
    BurnDriftBelow(b, s, rest, left, multiplier, deposits);
    BurnDriftAbove(b, s, rest, left, multiplier, burns);
  }

  lemma BurnDriftBelow(b: Positive, s: nat, rest: Positive, left: nat, m: int, d: nat)
    requires rest <= b && s * rest <= left * b
    requires b * m - d * FP_ONE < s * FP_ONE
    ensures rest * m - d * FP_ONE < left * FP_ONE
  {
    calc {
      (rest * m - d * FP_ONE) * b;
    ==
      (b * m) * rest - (d * FP_ONE) * b;
    <= { MulMonotone(rest, b, d * FP_ONE); assert rest * (d * FP_ONE) == (d * FP_ONE) * rest; }
      (b * m) * rest - (d * FP_ONE) * rest;
    ==
      (b * m - d * FP_ONE) * rest;
    <= { MulMonotone(b * m - d * FP_ONE, s * FP_ONE - 1, rest); }
      (s * FP_ONE - 1) * rest;
    == { assert (s * FP_ONE - 1) * rest == (s * rest) * FP_ONE - rest; }
      (s * rest) * FP_ONE - rest;
    <
      (s * rest) * FP_ONE;
    <=
      (left * b) * FP_ONE;
    ==
      (left * FP_ONE) * b;
    }
    CancelLess(rest * m - d * FP_ONE, left * FP_ONE, b);
  }

  lemma BurnDriftAbove(b: Positive, s: nat, rest: Positive, left: nat, m: int, w: nat)
    requires rest <= b && (left - 1) * b < s * rest
    requires s * FP_ONE <= b * m + w * FP_ONE
    ensures left * FP_ONE <= rest * m + (w + 1) * FP_ONE
  {
    calc {
      ((left - 1) * FP_ONE) * b;
    ==
      ((left - 1) * b) * FP_ONE;
    <=
      (s * rest) * FP_ONE;
    ==
      (s * FP_ONE) * rest;
    <= { MulMonotone(s * FP_ONE, b * m + w * FP_ONE, rest); }
      (b * m + w * FP_ONE) * rest;
    ==
      (b * m) * rest + (w * FP_ONE) * rest;
    <= { MulMonotone(rest, b, w * FP_ONE); assert rest * (w * FP_ONE) == (w * FP_ONE) * rest; }
      (b * m) * rest + (w * FP_ONE) * b;
    ==
      (rest * m + w * FP_ONE) * b;
    }
    CancelAtMost((left - 1) * FP_ONE, rest * m + w * FP_ONE, b);
  }

  // ---------------------------------------------------------------------------
  // The contract
  // ---------------------------------------------------------------------------

  ghost predicate Entries(balances: map<Key, int>, shares: map<Key, int>) {
    && balances.Keys == shares.Keys
    && forall k :: k in balances ==> 0 < balances[k] && 0 <= shares[k]
  }

  /** The positions that separate balance and share entries describe. */
  ghost function Positions(balances: map<Key, int>, shares: map<Key, int>): map<Key, Position>
    requires Entries(balances, shares)
  {
    map k | k in balances :: Position(balances[k], shares[k])
  }

  lemma PositionsProject(balances: map<Key, int>, shares: map<Key, int>)
    requires Entries(balances, shares)
    ensures Balances(Positions(balances, shares)) == balances
    ensures Shares(Positions(balances, shares)) == shares
  {
    assert Balances(Positions(balances, shares)) == balances;
    assert Shares(Positions(balances, shares)) == shares;
  }

  lemma PositionsStore(balances: map<Key, int>, shares: map<Key, int>, key: Key, p: Position)
    requires Entries(balances, shares)
    ensures Entries(balances[key := p.balance], shares[key := p.shares])
    ensures Positions(balances[key := p.balance], shares[key := p.shares]) == Positions(balances, shares)[key := p]
  {
    assert Positions(balances[key := p.balance], shares[key := p.shares]) == Positions(balances, shares)[key := p];
  }

  lemma PositionsErase(balances: map<Key, int>, shares: map<Key, int>, key: Key)
    requires Entries(balances, shares)
    ensures Entries(balances - {key}, shares - {key})
    ensures Positions(balances - {key}, shares - {key}) == Positions(balances, shares) - {key}
  {
    assert Positions(balances - {key}, shares - {key}) == Positions(balances, shares) - {key};
  }

  /** What the host keeps of a vault to undo a call that panics later on. */
  datatype Snapshot = Snapshot(
    balances: map<Key, int>,
    shares: map<Key, int>,
    lockUntil: map<Key, nat>,
    totalShares: int,
    totalBalance: int)
  {
    ghost predicate Consistent() {
      Entries(balances, shares) && totalShares == Sum(shares) && totalBalance == Sum(balances)
    }

    /** Putting the snapshot back turns `after` into `before`. */
    ghost predicate Undoes(before: Vault, after: Vault) {
      Consistent() && before == after.(positions := Positions(balances, shares), locks := lockUntil)
    }
  }

  class TierVault {
    const cfg: TierConfig
    const governance: Address
    const guardian: Address
    var balances: map<Key, int>
    var shares: map<Key, int>
    var lockUntil: map<Key, nat>
    var emergency: set<Address>
    var totalShares: int
    var totalBalance: int
    var maxTvl: int

    /** The running totals are the sums of the entries, and the entries describe positions. */
    ghost predicate Valid()
      reads this
    {
      && Entries(balances, shares)
      && totalBalance == Sum(balances)
      && totalShares == Sum(shares)
    }

    ghost function View(): Vault
      reads this
      requires Valid()
    {
      Vault(cfg, Positions(balances, shares), lockUntil, maxTvl, emergency)
    }

    /** The running totals are the ledger's sums. */
    lemma TotalsAreSums()
      requires Valid()
      ensures View().TotalBalance() == totalBalance && View().TotalShares() == totalShares
    {
      PositionsProject(balances, shares);
    }

    constructor (cfg: TierConfig, initialCap: int, governance: Address, guardian: Address)
      ensures Valid() && this.cfg == cfg && this.governance == governance && this.guardian == guardian
      ensures View() == Vault(cfg, map[], map[], if 0 < initialCap then initialCap else DEFAULT_MAX_TVL, {})
    {
      this.cfg, this.governance, this.guardian := cfg, governance, guardian;
      balances, shares, lockUntil := map[], map[], map[];
      emergency := {};
      totalShares, totalBalance := 0, 0;
      maxTvl := if 0 < initialCap then initialCap else DEFAULT_MAX_TVL;
    }

    function Save(): (s: Snapshot)
      reads this
    {
      Snapshot(balances, shares, lockUntil, totalShares, totalBalance)
    }

    method Restore(s: Snapshot)
      requires s.Consistent()
      modifies `balances, `shares, `lockUntil, `totalShares, `totalBalance
      ensures Valid()
      ensures View() == Vault(cfg, Positions(s.balances, s.shares), s.lockUntil, maxTvl, emergency)
    {
      balances, shares, lockUntil := s.balances, s.shares, s.lockUntil;
      totalShares, totalBalance := s.totalShares, s.totalBalance;
    }

    /** Writes one position's entries and the totals that account for them. */
    method Store(key: Key, balance: Positive, userShares: nat, newTotalShares: int, newTotalBalance: int)
      requires Valid()
      requires newTotalShares - userShares == totalShares - At(shares, key)
      requires newTotalBalance - balance == totalBalance - At(balances, key)
      modifies `balances, `shares, `totalShares, `totalBalance
      ensures Valid()
      ensures View() == old(View()).(positions := old(View()).positions[key := Position(balance, userShares)])
    {
      SumUpdate(balances, key, balance);
      SumUpdate(shares, key, userShares);
      PositionsStore(balances, shares, key, Position(balance, userShares));
      balances := balances[key := balance];
      shares := shares[key := userShares];
      totalShares := newTotalShares;
      totalBalance := newTotalBalance;
    }

    /** Removes one position's entries; the clamp at zero of the total never takes effect. */
    method Erase(key: Key)
      requires Valid()
      modifies `balances, `shares, `lockUntil, `totalShares, `totalBalance
      ensures Valid()
      ensures View() == old(View()).(positions := old(View()).positions - {key}, locks := old(View()).locks - {key})
      ensures totalBalance == old(totalBalance - At(balances, key))
    {
      SumDrop(balances, key);
      SumDrop(shares, key);
      SumCovers(balances - {key});
      PositionsErase(balances, shares, key);
      totalShares := totalShares - At(shares, key);
      totalBalance := if totalBalance - At(balances, key) < 0 then 0 else totalBalance - At(balances, key);
      balances := balances - {key};
      shares := shares - {key};
      lockUntil := lockUntil - {key};
    }

    method CheckDeposit(key: Key, amount: int, now: nat) returns (r: Result<int>)
      requires Valid()
      ensures r == View().DepositShares(key, amount, now)
    {
      TotalsAreSums();
      if amount < cfg.minDeposit {
        return Err(BelowMinDeposit);
      }
      if !InI128(totalBalance + amount) {
        return Err(Trap);
      }
      if cfg.Timelocked? && maxTvl < totalBalance + amount {
        return Err(DepositCapExceeded);
      }
      if cfg.MintTraps(amount) {
        return Err(Trap);
      }
      var newShares := cfg.Mint(amount);
      if !InI128(At(balances, key) + amount) || !InI128(At(shares, key) + newShares) || !InI128(totalShares + newShares) {
        return Err(Trap);
      }
      return if U32_MAX < now + cfg.Horizon() then Err(Trap) else Ok(newShares);
    }

    method Deposit(key: Key, amount: int, now: nat) returns (r: Result<()>)
      requires Valid()
      modifies this
      ensures Valid()
      ensures match old(View()).Deposit(key, amount, now)
              case Ok(v) => r == Ok(()) && View() == v
              case Err(e) => r == Err(e) && View() == old(View())
    {
      ghost var before := View();
      hide Vault.DepositShares;
      var minted := CheckDeposit(key, amount, now);
      if minted.Err? {
        return Err(minted.error);
      }
      Credit(key, amount, minted.value, now);
      assert before.Deposit(key, amount, now) == Ok(before.Credited(key, amount, minted.value, now));
      return Ok(());
    }

    method Credit(key: Key, amount: Positive, newShares: nat, now: nat)
      requires Valid()
      modifies this
      ensures Valid()
      ensures View() == old(View()).Credited(key, amount, newShares, now)
    {
      ghost var before := View();
      var balance, userShares := At(balances, key) + amount, At(shares, key) + newShares;
      assert before.BalanceOf(key) + amount == balance && before.SharesOf(key) + newShares == userShares;
      Store(key, balance, userShares, totalShares + newShares, totalBalance + amount);
      if cfg.Timelocked? {
        lockUntil := lockUntil[key := now + cfg.lockDuration];
      }
    }

    method Burn(key: Key, amount: int) returns (r: Result<()>)
      requires Valid()
      modifies `balances, `shares, `lockUntil, `totalShares, `totalBalance
      ensures Valid()
      ensures match old(View()).Burn(key, amount)
              case Ok(v) => r == Ok(()) && View() == v
              case Err(e) => r == Err(e) && View() == old(View())
    {
      TotalsAreSums();
      var balance, userShares := At(balances, key), At(shares, key);
      if balance < amount {
        return Err(AmountExceedsBalance);
      }
      if balance <= amount {
        Erase(key);
        return Ok(());
      }
      if balance == 0 || !InI128(userShares * amount) {
        return Err(Trap);
      }
      BurnWithinShares(balance, userShares, amount);
      var burned := TruncDiv(userShares * amount, balance);
      if !InI128(balance - amount) || !InI128(userShares - burned)
         || !InI128(totalShares - burned) || !InI128(totalBalance - amount) {
        return Err(Trap);
      }
      Store(key, balance - amount, userShares - burned, totalShares - burned, totalBalance - amount);
      return Ok(());
    }

    /** On success the result is the payout. */
    method Withdraw(key: Key, amount: int, now: nat) returns (r: Result<int>)
      requires Valid()
      modifies `balances, `shares, `lockUntil, `totalShares, `totalBalance
      ensures Valid()
      ensures match old(View()).Withdraw(key, amount, now)
              case Ok(v) => r == Ok(amount) && View() == v
              case Err(e) => r == Err(e) && View() == old(View())
    {
      if cfg.Unlocked? {
        if At(shares, key) <= 0 || At(balances, key) <= 0 {
          return Err(EmptyPosition);
        }
      } else if !(cfg.hasEmergency && key.asset in emergency) {
        var until := if key in lockUntil then lockUntil[key] else 0;
        if now < until {
          return Err(LockNotExpired);
        }
      }
      var burnt := Burn(key, amount);
      return if burnt.Ok? then Ok(amount) else Err(burnt.error);
    }

    /** On success the result is the amount net of the exit fee. */
    method EarlyExit(key: Key, amount: int) returns (r: Result<int>)
      requires Valid()
      modifies `balances, `shares, `lockUntil, `totalShares, `totalBalance
      ensures Valid()
      ensures match old(View()).EarlyExit(key, amount)
              case Ok(v) => r == Ok(old(View()).ExitPayout(key.asset, amount)) && View() == v
              case Err(e) => r == Err(e) && View() == old(View())
    {
      if cfg.Unlocked? && (At(shares, key) <= 0 || At(balances, key) <= 0) {
        return Err(EmptyPosition);
      }
      if At(balances, key) < amount {
        return Err(AmountExceedsBalance);
      }
      var net := amount;
      if cfg.Timelocked? && !(cfg.hasEmergency && key.asset in emergency) {
        if !InI128(amount * cfg.exitFee) {
          return Err(Trap);
        }
        var fee := MulFp(amount, cfg.exitFee);
        if !InI128(amount - fee) {
          return Err(Trap);
        }
        net := amount - fee;
      }
      var burnt := Burn(key, amount);
      return if burnt.Ok? then Ok(net) else Err(burnt.error);
    }

    /** On success the result is the new lock. */
    method Relock(key: Key, now: nat) returns (r: Result<nat>)
      requires Valid()
      modifies this
      ensures Valid()
      ensures match old(View()).Relock(key, now)
              case Ok(v) => r == Ok(v.LockOf(key)) && View() == v
              case Err(e) => r == Err(e) && View() == old(View())
    {
      if cfg.Unlocked? {
        return Err(NotSupported);
      }
      var until := if key in lockUntil then lockUntil[key] else 0;
      if now < until {
        return Err(NotYetMatured);
      }
      if U32_MAX < now + cfg.lockDuration {
        return Err(Trap);
      }
      lockUntil := lockUntil[key := now + cfg.lockDuration];
      return Ok(now + cfg.lockDuration);
    }

    method SetMaxTvl(caller: Address, newCap: int) returns (r: Result<()>)
      requires Valid()
      modifies `maxTvl
      ensures Valid()
      ensures match if caller != governance then Err(Unauthorized) else old(View()).SetCap(newCap)
              case Ok(v) => r == Ok(()) && View() == v
              case Err(e) => r == Err(e) && View() == old(View())
    {
      if caller != governance {
        return Err(Unauthorized);
      }
      if cfg.Unlocked? {
        return Err(NotSupported);
      }
      maxTvl := newCap;
      return Ok(());
    }

    method SetEmergencyUnlock(caller: Address, asset: Address, active: bool) returns (r: Result<()>)
      requires Valid()
      modifies `emergency
      ensures Valid()
      ensures match if caller != guardian then Err(Unauthorized) else old(View()).SetEmergency(asset, active)
              case Ok(v) => r == Ok(()) && View() == v
              case Err(e) => r == Err(e) && View() == old(View())
    {
      if caller != guardian {
        return Err(Unauthorized);
      }
      if cfg.Unlocked? || !cfg.hasEmergency {
        return Err(NotSupported);
      }
      emergency := if active then emergency + {asset} else emergency - {asset};
      return Ok(());
    }
  }
}
