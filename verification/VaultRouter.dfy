/**
 The router in front of the four tier vaults: it moves the tokens, calls the vault, and
 either both happen or neither does.

 `World` is the whole on-chain state together with a history of what succeeded. The
 history is what the properties are stated against; the published events are a
 projection of it.
 */
module VaultRouter {
  import opened Common
  import opened FloorArithmetic
  import opened TierVaults
  import opened TokenLedger
  import opened VaultEvents

  datatype Roles = Roles(admin: Address, governance: Address, guardian: Address)

  /**
   A successful step worth remembering. `gross` left the position or entered it; `closes` if
   nothing remains; `lifted` if the asset's emergency flag was on.
   */
  datatype Entry =
    | Moved(event: VaultEvent, gross: int, closes: bool, lifted: bool, ledger: nat)
    | Relocked(tier: Tier, key: Key, ledger: nat)
  {
    function Tier(): Tier {
      if Moved? then event.tier else tier
    }

    function Key(): Key {
      if Moved? then TierVaults.Key(event.user, event.asset) else key
    }

    /** The exit fee that the contract charges: on an early exit outside an emergency, floored. */
    function Fee(): int {
      if Moved? && event.kind == EarlyExitEvent && !lifted then MulFp(gross, ConfigOf(event.tier).ExitRate()) else 0
    }
  }

  /** The events the vaults published: relocking publishes none. */
  function EventsOf(history: seq<Entry>): seq<VaultEvent> {
    if |history| == 0 then [] else
      var last := history[|history| - 1];
      EventsOf(history[..|history| - 1]) + if last.Moved? then [last.event] else []
  }

  datatype Tiers = Tiers(flex: Vault, l3: Vault, l6: Vault, l12: Vault) {
    function At(tier: Tier): Vault {
      match tier
      case Flex => flex
      case L3 => l3
      case L6 => l6
      case L12 => l12
    }

    function With(tier: Tier, v: Vault): (r: Tiers)
      ensures forall t :: r.At(t) == if t == tier then v else At(t)
    {
      match tier
      case Flex => this.(flex := v)
      case L3 => this.(l3 := v)
      case L6 => this.(l6 := v)
      case L12 => this.(l12 := v)
    }
  }

  /** `arrived` counts the tokens that reached a vault's account by other ways than the router. */
  datatype World = World(
    tiers: Tiers,
    tokens: Tokens,
    arrived: Tokens,
    paused: bool,
    allowed: set<Address>,
    roles: Roles,
    now: nat,
    history: seq<Entry>)
  {
    function WithVault(tier: Tier, v: Vault): World {
      this.(tiers := tiers.With(tier, v))
    }

    function VaultHolding(tier: Tier, asset: Address): nat {
      Holding(tokens, VaultAccount(tier), asset)
    }

    function Arrived(tier: Tier, asset: Address): nat {
      Holding(arrived, VaultAccount(tier), asset)
    }

    /** What the router moved into the vault and not out again. */
    function Routed(tier: Tier, asset: Address): int {
      VaultHolding(tier, asset) - Arrived(tier, asset)
    }
  }

  datatype Action =
    | Deposit(user: Address, tier: Tier, asset: Address, amount: int)
    | Withdraw(user: Address, tier: Tier, asset: Address, amount: int)
    | EarlyExit(user: Address, tier: Tier, asset: Address, amount: int)
    | Relock(user: Address, tier: Tier, asset: Address)
    | SetPaused(caller: Address, paused: bool)
    | SetMaxTvl(caller: Address, tier: Tier, newCap: int)
    | SetEmergency(caller: Address, tier: Tier, asset: Address, active: bool)
    | AllowAsset(caller: Address, asset: Address, allow: bool)
    | AdvanceLedger(ledgers: nat)
    | WalletChanges(user: Address, asset: Address, holding: nat)
    | TokensArrive(tier: Tier, asset: Address, received: nat)

  function MinDeposit(tier: Tier): int {
    match tier
    case Flex => 10_000_000
    case L3 => 500_000_000
    case L6 => 1_000_000_000
    case L12 => 2_500_000_000
  }

  /** A payout of zero or less moves no tokens. */
  function PayOut(tokens: Tokens, asset: Address, tier: Tier, user: Address, payout: int): Result<Tokens> {
    if 0 < payout then Transfer(tokens, asset, VaultAccount(tier), Wallet(user), payout) else Ok(tokens)
  }

  ghost function DepositStep(w: World, user: Address, tier: Tier, asset: Address, amount: int): Result<World> {
    if w.paused then Err(Paused)
    else if asset !in w.allowed then Err(AssetNotAllowed)
    else if amount < MinDeposit(tier) then Err(BelowMinDeposit)
    else
      var tokens :- Transfer(w.tokens, asset, Wallet(user), VaultAccount(tier), amount);
      var v :- w.tiers.At(tier).Deposit(Key(user, asset), amount, w.now);
      var e := Moved(VaultEvent(tier, asset, user, DepositEvent, amount), amount, false,
                     w.tiers.At(tier).EmergencyOn(asset), w.now);
      Ok(w.WithVault(tier, v).(tokens := tokens, history := w.history + [e]))
  }

  /** Pays out an exit that took `gross` off the position, leaving the vault as `v`. */
  function Settled(w: World, event: VaultEvent, gross: int, v: Vault): Result<World> {
    var tokens :- PayOut(w.tokens, event.asset, event.tier, event.user, event.amount);
    var before := w.tiers.At(event.tier);
    var closes := before.BalanceOf(Key(event.user, event.asset)) == gross;
    var e := Moved(event, gross, closes, before.EmergencyOn(event.asset), w.now);
    Ok(w.WithVault(event.tier, v).(tokens := tokens, history := w.history + [e]))
  }

  ghost function WithdrawStep(w: World, user: Address, tier: Tier, asset: Address, amount: int): Result<World> {
    if w.paused then Err(Paused)
    else
      var v :- w.tiers.At(tier).Withdraw(Key(user, asset), amount, w.now);
      Settled(w, VaultEvent(tier, asset, user, WithdrawEvent, amount), amount, v)
  }

  ghost function EarlyExitStep(w: World, user: Address, tier: Tier, asset: Address, amount: int): Result<World> {
    if w.paused then Err(Paused)
    else
      var v :- w.tiers.At(tier).EarlyExit(Key(user, asset), amount);
      var net := w.tiers.At(tier).ExitPayout(asset, amount);
      Settled(w, VaultEvent(tier, asset, user, EarlyExitEvent, net), amount, v)
  }

  lemma EarlyExitStepCases(w: World, user: Address, tier: Tier, asset: Address, amount: int)
    ensures w.paused ==> EarlyExitStep(w, user, tier, asset, amount) == Err(Paused)
    ensures !w.paused ==>
              var v := w.tiers.At(tier);
              match v.EarlyExit(Key(user, asset), amount)
              case Ok(v') =>
                var event := VaultEvent(tier, asset, user, EarlyExitEvent, v.ExitPayout(asset, amount));
                EarlyExitStep(w, user, tier, asset, amount) == Settled(w, event, amount, v')
              case Err(e) => EarlyExitStep(w, user, tier, asset, amount) == Err(e)
  {
    hide Vault.EarlyExit, Vault.ExitPayout, Settled;
  }

  function RelockStep(w: World, user: Address, tier: Tier, asset: Address): Result<World> {
    if tier == Flex then Err(NotSupported)
    else
      var v :- w.tiers.At(tier).Relock(Key(user, asset), w.now);
      Ok(w.WithVault(tier, v).(history := w.history + [Relocked(tier, Key(user, asset), w.now)]))
  }

  function SetMaxTvlStep(w: World, caller: Address, tier: Tier, newCap: int): Result<World> {
    if caller != w.roles.governance then Err(Unauthorized)
    else
      var v :- w.tiers.At(tier).SetCap(newCap);
      Ok(w.WithVault(tier, v))
  }

  /** One call, or one move of the environment. Calls by anyone but the registered address are refused. */
  ghost function Step(w: World, a: Action): Result<World> {
    match a
    case Deposit(user, tier, asset, amount) => DepositStep(w, user, tier, asset, amount)
    case Withdraw(user, tier, asset, amount) => WithdrawStep(w, user, tier, asset, amount)
    case EarlyExit(user, tier, asset, amount) => EarlyExitStep(w, user, tier, asset, amount)
    case Relock(user, tier, asset) => RelockStep(w, user, tier, asset)
    case SetPaused(caller, paused) =>
      if caller != w.roles.guardian then Err(Unauthorized) else Ok(w.(paused := paused))
    case SetMaxTvl(caller, tier, newCap) => SetMaxTvlStep(w, caller, tier, newCap)
    case SetEmergency(caller, tier, asset, active) =>
      if caller != w.roles.guardian then Err(Unauthorized)
      else
        var v :- w.tiers.At(tier).SetEmergency(asset, active);
        Ok(w.(tiers := w.tiers.With(tier, v)))
    case AllowAsset(caller, asset, allow) =>
      if caller != w.roles.admin then Err(Unauthorized)
      else Ok(w.(allowed := if allow then w.allowed + {asset} else w.allowed - {asset}))
    case AdvanceLedger(ledgers) => Ok(w.(now := w.now + ledgers))
    case WalletChanges(user, asset, holding) =>
      Ok(w.(tokens := w.tokens[Slot(Wallet(user), asset) := holding]))
    case TokensArrive(tier, asset, received) =>
      var slot := Slot(VaultAccount(tier), asset);
      Ok(w.(tokens := w.tokens[slot := w.VaultHolding(tier, asset) + received],
            arrived := w.arrived[slot := w.Arrived(tier, asset) + received]))
  }

  /** A failing call is rolled back as a whole. */
  ghost function Apply(w: World, a: Action): World {
    match Step(w, a)
    case Ok(w') => w'
    case Err(_) => w
  }

  ghost function Run(w: World, actions: seq<Action>): World {
    if |actions| == 0 then w else Apply(Run(w, actions[..|actions| - 1]), actions[|actions| - 1])
  }

  function NewVault(tier: Tier, initialCap: int): Vault {
    Vault(ConfigOf(tier), map[], map[], if 0 < initialCap then initialCap else DEFAULT_MAX_TVL, {})
  }

  ghost predicate FreshVault(v: Vault, tier: Tier) {
    exists cap :: v == NewVault(tier, cap)
  }

  /** Freshly initialised contracts: no positions, and nothing held by the vaults. */
  ghost predicate Genesis(w: World) {
    && (forall t :: FreshVault(w.tiers.At(t), t))
    && (forall t, a :: w.VaultHolding(t, a) == 0)
    && w.arrived == map[]
    && w.history == []
  }

  // ---------------------------------------------------------------------------
  // The contract
  // ---------------------------------------------------------------------------

  class Router {
    const flex: TierVault
    const l3: TierVault
    const l6: TierVault
    const l12: TierVault
    const roles: Roles
    var tokens: Tokens
    var paused: bool
    var allowed: set<Address>
    var events: seq<VaultEvent>
    ghost var arrived: Tokens
    ghost var history: seq<Entry>

    constructor (roles: Roles, flex: TierVault, l3: TierVault, l6: TierVault, l12: TierVault,
                 assets: set<Address>, tokens: Tokens)
      requires flex != l3 && flex != l6 && flex != l12 && l3 != l6 && l3 != l12 && l6 != l12
      requires flex.Valid() && l3.Valid() && l6.Valid() && l12.Valid()
      requires flex.cfg == ConfigOf(Flex) && l3.cfg == ConfigOf(L3) && l6.cfg == ConfigOf(L6) && l12.cfg == ConfigOf(L12)
      requires forall v :: v in {flex, l3, l6, l12} ==> v.governance == roles.governance && v.guardian == roles.guardian
      ensures Valid()
      ensures forall now :: State(now)
                == World(Tiers(flex.View(), l3.View(), l6.View(), l12.View()), tokens, map[], false, assets, roles, now, [])
    {
      this.roles := roles;
      this.flex, this.l3, this.l6, this.l12 := flex, l3, l6, l12;
      this.tokens := tokens;
      paused, allowed := false, assets;
      events, arrived, history := [], map[], [];
    }

    function VaultOf(tier: Tier): TierVault {
      match tier
      case Flex => flex
      case L3 => l3
      case L6 => l6
      case L12 => l12
    }

    ghost function Vaults(): set<TierVault> {
      {flex, l3, l6, l12}
    }

    ghost predicate Wired()
      reads this
    {
      && flex != l3 && flex != l6 && flex != l12 && l3 != l6 && l3 != l12 && l6 != l12
      && flex.cfg == ConfigOf(Flex) && l3.cfg == ConfigOf(L3) && l6.cfg == ConfigOf(L6) && l12.cfg == ConfigOf(L12)
      && (forall v :: v in Vaults() ==> v.governance == roles.governance && v.guardian == roles.guardian)
      && events == EventsOf(history)
    }

    ghost predicate Valid()
      reads this, Vaults()
    {
      Wired() && flex.Valid() && l3.Valid() && l6.Valid() && l12.Valid()
    }

    lemma ViewOfTier(tier: Tier, now: nat)
      requires Valid()
      ensures State(now).tiers.At(tier) == VaultOf(tier).View()
    {
    }

    /** A call that reaches one vault leaves the other three as they were. */
    twostate lemma OneVaultMoves(tier: Tier)
      requires old(Valid()) && Wired() && VaultOf(tier).Valid()
      requires forall t :: t != tier ==> unchanged(VaultOf(t))
      ensures Valid()
      ensures Views() == old(Views()).With(tier, VaultOf(tier).View())
    {
      match tier
      case Flex => assert unchanged(VaultOf(L3)) && unchanged(VaultOf(L6)) && unchanged(VaultOf(L12));
      case L3 => assert unchanged(VaultOf(Flex)) && unchanged(VaultOf(L6)) && unchanged(VaultOf(L12));
      case L6 => assert unchanged(VaultOf(Flex)) && unchanged(VaultOf(L3)) && unchanged(VaultOf(L12));
      case L12 => assert unchanged(VaultOf(Flex)) && unchanged(VaultOf(L3)) && unchanged(VaultOf(L6));
    }

    ghost function Views(): Tiers
      reads this, Vaults()
      requires Valid()
    {
      Tiers(flex.View(), l3.View(), l6.View(), l12.View())
    }

    ghost function State(now: nat): World
      reads this, Vaults()
      requires Valid()
    {
      World(Views(), tokens, arrived, paused, allowed, roles, now, history)
    }

    // Calls into one vault, seen from the router: everything but that vault is as it was.

    method BookDeposit(tier: Tier, key: Key, amount: int, now: nat) returns (r: Result<()>)
      requires Valid()
      modifies VaultOf(tier)
      ensures Valid()
      ensures match old(VaultOf(tier).View()).Deposit(key, amount, now)
              case Ok(v) => r == Ok(()) && State(now) == old(State(now)).WithVault(tier, v)
              case Err(e) => r == Err(e) && State(now) == old(State(now))
    {
      hide Vault.Deposit;
      r := VaultOf(tier).Deposit(key, amount, now);
      OneVaultMoves(tier);
    }

    method BookWithdrawal(tier: Tier, key: Key, amount: int, now: nat) returns (r: Result<int>, saved: Snapshot)
      requires Valid()
      modifies VaultOf(tier)
      ensures Valid()
      ensures match old(VaultOf(tier).View()).Withdraw(key, amount, now)
              case Ok(v) => r == Ok(amount) && State(now) == old(State(now)).WithVault(tier, v)
                            && saved.Undoes(old(VaultOf(tier).View()), v)
              case Err(e) => r == Err(e) && State(now) == old(State(now))
    {
      hide Vault.Withdraw;
      saved := VaultOf(tier).Save();
      r := VaultOf(tier).Withdraw(key, amount, now);
      OneVaultMoves(tier);
    }

    method BookEarlyExit(tier: Tier, key: Key, amount: int, ghost now: nat) returns (r: Result<int>, saved: Snapshot)
      requires Valid()
      modifies VaultOf(tier)
      ensures Valid()
      ensures match old(VaultOf(tier).View()).EarlyExit(key, amount)
              case Ok(v) => r == Ok(old(VaultOf(tier).View()).ExitPayout(key.asset, amount))
                            && State(now) == old(State(now)).WithVault(tier, v)
                            && saved.Undoes(old(VaultOf(tier).View()), v)
              case Err(e) => r == Err(e) && State(now) == old(State(now))
    {
      hide Vault.EarlyExit, Vault.ExitPayout;
      saved := VaultOf(tier).Save();
      r := VaultOf(tier).EarlyExit(key, amount);
      OneVaultMoves(tier);
    }

    method BookRelock(tier: Tier, key: Key, now: nat) returns (r: Result<nat>)
      requires Valid()
      modifies VaultOf(tier)
      ensures Valid()
      ensures match old(VaultOf(tier).View()).Relock(key, now)
              case Ok(v) => r == Ok(v.LockOf(key)) && State(now) == old(State(now)).WithVault(tier, v)
              case Err(e) => r == Err(e) && State(now) == old(State(now))
    {
      hide Vault.Relock;
      r := VaultOf(tier).Relock(key, now);
      OneVaultMoves(tier);
    }

    method Undo(tier: Tier, saved: Snapshot, ghost before: World)
      requires Valid()
      requires State(before.now) == before.WithVault(tier, VaultOf(tier).View())
      requires saved.Undoes(before.tiers.At(tier), VaultOf(tier).View())
      modifies VaultOf(tier)
      ensures Valid()
      ensures State(before.now) == before
    {
      VaultOf(tier).Restore(saved);
      OneVaultMoves(tier);
    }

    /** Makes the token movement final and publishes the vault's event. */
    method Commit(moved: Tokens, event: VaultEvent, ghost gross: int, ghost closes: bool, ghost lifted: bool, ghost now: nat)
      requires Valid()
      modifies `tokens, `events, `history
      ensures Valid()
      ensures State(now) == old(State(now)).(tokens := moved, history := old(history) + [Moved(event, gross, closes, lifted, now)])
    {
      tokens := moved;
      events := events + [event];
      history := history + [Moved(event, gross, closes, lifted, now)];
      assert history[..|history| - 1] == old(history);
    }

    /** The token transfer is made first; if the vault then refuses, the host undoes it. */
    method Deposit(user: Address, tier: Tier, asset: Address, amount: int, now: nat) returns (r: Result<()>)
      requires Valid()
      modifies this, VaultOf(tier)
      ensures Valid()
      ensures match DepositStep(old(State(now)), user, tier, asset, amount)
              case Ok(w) => r == Ok(()) && State(now) == w
              case Err(e) => r == Err(e) && State(now) == old(State(now))
    {
      if paused {
        return Err(Paused);
      }
      if asset !in allowed {
        return Err(AssetNotAllowed);
      }
      if amount < MinDeposit(tier) {
        return Err(BelowMinDeposit);
      }
      var sent := Transfer(tokens, asset, Wallet(user), VaultAccount(tier), amount);
      if sent.Err? {
        return Err(sent.error);
      }
      ViewOfTier(tier, now);
      ghost var lifted := VaultOf(tier).View().EmergencyOn(asset);
      r := BookDeposit(tier, Key(user, asset), amount, now);
      if r.Ok? {
        Commit(sent.value, VaultEvent(tier, asset, user, DepositEvent, amount), amount, false, lifted, now);
      }
    }

    /** The vault books the exit and the router pays it out; if paying fails, the booking is undone. */
    method Withdraw(user: Address, tier: Tier, asset: Address, amount: int, now: nat) returns (r: Result<()>)
      requires Valid()
      modifies this, VaultOf(tier)
      ensures Valid()
      ensures match WithdrawStep(old(State(now)), user, tier, asset, amount)
              case Ok(w) => r == Ok(()) && State(now) == w
              case Err(e) => r == Err(e) && State(now) == old(State(now))
    {
      if paused {
        return Err(Paused);
      }
      hide Vault.Withdraw, Settled, Snapshot.Undoes;
      ghost var before := State(now);
      ViewOfTier(tier, now);
      var payout, saved := BookWithdrawal(tier, Key(user, asset), amount, now);
      if payout.Err? {
        assert WithdrawStep(before, user, tier, asset, amount) == Err(payout.error);
        return Err(payout.error);
      }
      ghost var v := VaultOf(tier).View();
      var event := VaultEvent(tier, asset, user, WithdrawEvent, payout.value);
      assert WithdrawStep(before, user, tier, asset, amount) == Settled(before, event, amount, v);
      r := Settle(event, saved, amount, before);
    }

    method EarlyExit(user: Address, tier: Tier, asset: Address, amount: int, now: nat) returns (r: Result<()>)
      requires Valid()
      modifies this, VaultOf(tier)
      ensures Valid()
      ensures match EarlyExitStep(old(State(now)), user, tier, asset, amount)
              case Ok(w) => r == Ok(()) && State(now) == w
              case Err(e) => r == Err(e) && State(now) == old(State(now))
    {
      hide EarlyExitStep, Vault.EarlyExit, Vault.ExitPayout, Settled, Snapshot.Undoes, Tiers.At, Tiers.With, EventsOf;
      ghost var before := State(now);
      EarlyExitStepCases(before, user, tier, asset, amount);
      if paused {
        return Err(Paused);
      }
      ViewOfTier(tier, now);
      var net, saved := BookEarlyExit(tier, Key(user, asset), amount, now);
      if net.Err? {
        return Err(net.error);
      }
      ViewOfTier(tier, now);
      r := Settle(VaultEvent(tier, asset, user, EarlyExitEvent, net.value), saved, amount, before);
    }

    /** Pays out an exit that the vault has booked, and publishes it. */
    method Settle(event: VaultEvent, saved: Snapshot, ghost gross: int, ghost before: World) returns (r: Result<()>)
      requires Valid()
      requires State(before.now) == before.WithVault(event.tier, VaultOf(event.tier).View())
      requires saved.Undoes(before.tiers.At(event.tier), VaultOf(event.tier).View())
      modifies this, VaultOf(event.tier)
      ensures Valid()
      ensures match Settled(before, event, gross, old(VaultOf(event.tier).View()))
              case Ok(w) => r == Ok(()) && State(before.now) == w
              case Err(e) => r == Err(e) && State(before.now) == before
    {
      var sent := PayOut(tokens, event.asset, event.tier, event.user, event.amount);
      if sent.Ok? {
        ghost var was := before.tiers.At(event.tier);
        ghost var closes := was.BalanceOf(Key(event.user, event.asset)) == gross;
        Commit(sent.value, event, gross, closes, was.EmergencyOn(event.asset), before.now);
        return Ok(());
      }
      Undo(event.tier, saved, before);
      return Err(sent.error);
    }

    /** Not held back by the pause flag. */
    method Relock(user: Address, tier: Tier, asset: Address, now: nat) returns (r: Result<nat>)
      requires Valid()
      modifies this, VaultOf(tier)
      ensures Valid()
      ensures match RelockStep(old(State(now)), user, tier, asset)
              case Ok(w) => r == Ok(w.tiers.At(tier).LockOf(Key(user, asset))) && State(now) == w
              case Err(e) => r == Err(e) && State(now) == old(State(now))
    {
      if tier == Flex {
        return Err(NotSupported);
      }
      hide Vault.Relock;
      ghost var before := State(now);
      ViewOfTier(tier, now);
      r := BookRelock(tier, Key(user, asset), now);
      if r.Err? {
        assert RelockStep(before, user, tier, asset) == Err(r.error);
        return;
      }
      ghost var v := VaultOf(tier).View();
      assert RelockStep(before, user, tier, asset)
          == Ok(before.WithVault(tier, v).(history := before.history + [Relocked(tier, Key(user, asset), now)]));
      RememberRelock(tier, Key(user, asset), now);
    }

    /** `pause` and `unpause`. */
    method SetPaused(caller: Address, halt: bool, ghost now: nat) returns (r: Result<()>)
      requires Valid()
      modifies `paused
      ensures Valid()
      ensures match Step(old(State(now)), Action.SetPaused(caller, halt))
              case Ok(w) => r == Ok(()) && State(now) == w
              case Err(e) => r == Err(e) && State(now) == old(State(now))
    {
      if caller != roles.guardian {
        return Err(Unauthorized);
      }
      paused := halt;
      return Ok(());
    }

    /** `add_deposit_asset` and `remove_deposit_asset`. */
    method AllowAsset(caller: Address, asset: Address, allow: bool, ghost now: nat) returns (r: Result<()>)
      requires Valid()
      modifies `allowed
      ensures Valid()
      ensures match Step(old(State(now)), Action.AllowAsset(caller, asset, allow))
              case Ok(w) => r == Ok(()) && State(now) == w
              case Err(e) => r == Err(e) && State(now) == old(State(now))
    {
      if caller != roles.admin {
        return Err(Unauthorized);
      }
      allowed := if allow then allowed + {asset} else allowed - {asset};
      return Ok(());
    }

    /** The vault asks for governance's authorisation once more. */
    method SetMaxTvl(caller: Address, tier: Tier, newCap: int, ghost now: nat) returns (r: Result<()>)
      requires Valid()
      modifies VaultOf(tier)
      ensures Valid()
      ensures match SetMaxTvlStep(old(State(now)), caller, tier, newCap)
              case Ok(w) => r == Ok(()) && State(now) == w
              case Err(e) => r == Err(e) && State(now) == old(State(now))
    {
      if caller != roles.governance {
        return Err(Unauthorized);
      }
      hide Vault.SetCap;
      ViewOfTier(tier, now);
      assert VaultOf(tier) in Vaults();
      r := VaultOf(tier).SetMaxTvl(caller, newCap);
      OneVaultMoves(tier);
    }

    /** A relock publishes nothing. */
    ghost method RememberRelock(tier: Tier, key: Key, now: nat)
      requires Valid()
      modifies `history
      ensures Valid()
      ensures State(now) == old(State(now)).(history := old(history) + [Relocked(tier, key, now)])
    {
      history := history + [Relocked(tier, key, now)];
      assert history[..|history| - 1] == old(history);
    }
  }
}
