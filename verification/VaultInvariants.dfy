/**
 What every run of the router and its vaults keeps. Each invariant is a predicate of its
 own; `StepShape` says once what a successful step can do, and each invariant is then
 shown to survive the shapes.
 */
module VaultInvariants {
  import opened Common
  import opened FloorArithmetic
  import opened MapSums
  import opened TierVaults
  import opened TokenLedger
  import opened VaultEvents
  import opened VaultRouter

  // ---------------------------------------------------------------------------
  // What a history adds up to
  // ---------------------------------------------------------------------------

  function Fees(history: seq<Entry>, tier: Tier, asset: Address): int {
    if |history| == 0 then 0 else
      var last := history[|history| - 1];
      Fees(history[..|history| - 1], tier, asset)
      + if last.Tier() == tier && last.Key().asset == asset then last.Fee() else 0
  }

  function TierFees(history: seq<Entry>, tier: Tier): int {
    if |history| == 0 then 0 else
      var last := history[|history| - 1];
      TierFees(history[..|history| - 1], tier) + if last.Tier() == tier then last.Fee() else 0
  }

  /** Deposits into a position since it was last empty. */
  function Deposits(history: seq<Entry>, tier: Tier, key: Key): nat {
    if |history| == 0 then 0 else
      var last, before := history[|history| - 1], Deposits(history[..|history| - 1], tier, key);
      if !last.Moved? || last.Tier() != tier || last.Key() != key then before
      else if last.closes then 0
      else if last.event.kind == DepositEvent then before + 1
      else before
  }

  /** Partial burns of a position since it was last empty. */
  function Burns(history: seq<Entry>, tier: Tier, key: Key): nat {
    if |history| == 0 then 0 else
      var last, before := history[|history| - 1], Burns(history[..|history| - 1], tier, key);
      if !last.Moved? || last.Tier() != tier || last.Key() != key then before
      else if last.closes then 0
      else if last.event.kind == DepositEvent then before
      else before + 1
  }

  ghost function AssetBalances(positions: map<Key, Position>, asset: Address): map<Key, int> {
    map k | k in positions && k.asset == asset :: positions[k].balance
  }

  /** The sum of the users' balances in one asset. */
  ghost function Owed(v: Vault, asset: Address): int {
    Sum(AssetBalances(v.positions, asset))
  }

  lemma OwedStore(v: Vault, key: Key, p: Position, asset: Address)
    ensures Owed(v.(positions := v.positions[key := p]), asset)
         == Owed(v, asset) + if key.asset == asset then p.balance - v.BalanceOf(key) else 0
    ensures v.(positions := v.positions[key := p]).TotalBalance() == v.TotalBalance() + p.balance - v.BalanceOf(key)
  {
    var after := v.positions[key := p];
    if key.asset == asset {
      assert AssetBalances(after, asset) == AssetBalances(v.positions, asset)[key := p.balance];
      SumUpdate(AssetBalances(v.positions, asset), key, p.balance);
    } else {
      assert AssetBalances(after, asset) == AssetBalances(v.positions, asset);
    }
    assert Balances(after) == Balances(v.positions)[key := p.balance];
    SumUpdate(Balances(v.positions), key, p.balance);
  }

  lemma OwedErase(v: Vault, key: Key, asset: Address)
    ensures Owed(v.(positions := v.positions - {key}), asset)
         == Owed(v, asset) - if key.asset == asset then v.BalanceOf(key) else 0
    ensures v.(positions := v.positions - {key}).TotalBalance() == v.TotalBalance() - v.BalanceOf(key)
  {
    var after := v.positions - {key};
    assert AssetBalances(after, asset) == AssetBalances(v.positions, asset) - {key};
    SumDrop(AssetBalances(v.positions, asset), key);
    assert Balances(after) == Balances(v.positions) - {key};
    SumDrop(Balances(v.positions), key);
  }

  // ---------------------------------------------------------------------------
  // The shapes of a successful step
  // ---------------------------------------------------------------------------

  predicate IsMove(a: Action) {
    a.Deposit? || a.Withdraw? || a.EarlyExit?
  }

  /** The amount sign that the contracts never check; `SignDecidesBacking` says what hinges on it. */
  predicate NonNegative(a: Action) {
    IsMove(a) ==> 0 <= a.amount
  }

  ghost predicate Configured(w: World) {
    forall t :: w.tiers.At(t).cfg == ConfigOf(t)
  }

  ghost predicate SamePositions(w: World, w': World, t: Tier) {
    w'.tiers.At(t).positions == w.tiers.At(t).positions && w'.tiers.At(t).locks == w.tiers.At(t).locks
  }

  ghost predicate Quiet(w: World, w': World) {
    && w'.history == w.history
    && w.now <= w'.now
    && (forall t :: SamePositions(w, w', t))
    && (forall t, a :: w'.Routed(t, a) == w.Routed(t, a))
  }

  ghost predicate Relocks(w: World, w': World, tier: Tier, key: Key) {
    && w'.history == w.history + [Relocked(tier, key, w.now)]
    && w.now == w'.now
    && tier != Flex
    && w.tiers.At(tier).LockOf(key) <= w.now
    && w'.tiers == w.tiers.With(tier, w.tiers.At(tier).(locks := w.tiers.At(tier).locks[key := w.now + ConfigOf(tier).LockLength()]))
    && w'.tokens == w.tokens
    && w'.arrived == w.arrived
  }

  /** What a move does to the vault it names. */
  ghost predicate VaultMoves(v: Vault, v': Vault, e: Entry)
    requires e.Moved?
  {
    var key := e.Key();
    var b, s := v.BalanceOf(key), v.SharesOf(key);
    && e.lifted == v.EmergencyOn(key.asset)
    && if e.event.kind == DepositEvent then
      && 0 < e.gross && 0 <= v.cfg.Mint(e.gross) && !e.closes && e.event.amount == e.gross
      && v' == v.Credited(key, e.gross, v.cfg.Mint(e.gross), e.ledger)
    else
      && 0 <= e.event.amount <= e.gross <= b
      && e.event.amount == (if e.event.kind == WithdrawEvent then e.gross else v.ExitPayout(key.asset, e.gross))
      && e.closes == (b == e.gross)
      && if e.closes then v' == v.(positions := v.positions - {key}, locks := v.locks - {key})
         else
           && TruncDiv(s * e.gross, b) <= s
           && v' == v.(positions := v.positions[key := Position(b - e.gross, s - TruncDiv(s * e.gross, b))])
  }

  ghost predicate Moves(w: World, w': World, e: Entry) {
    && e.Moved?
    && e.ledger == w.now == w'.now
    && w'.history == w.history + [e]
    && VaultMoves(w.tiers.At(e.Tier()), w'.tiers.At(e.Tier()), e)
    && w'.tiers == w.tiers.With(e.Tier(), w'.tiers.At(e.Tier()))
    && w'.arrived == w.arrived
    && (forall t, a :: w'.Routed(t, a)
          == w.Routed(t, a) + if t == e.Tier() && a == e.Key().asset then e.event.Delta() else 0)
  }

  function LastEntry(w: World): Entry
    requires 0 < |w.history|
  {
    w.history[|w.history| - 1]
  }

  lemma {:induction false} StepShape(w: World, a: Action)
    requires Configured(w) && NonNegative(a) && Step(w, a).Ok?
    ensures var w' := Step(w, a).value;
            && Configured(w')
            && if IsMove(a) then 0 < |w'.history| && Moves(w, w', LastEntry(w'))
               else if a.Relock? then Relocks(w, w', a.tier, Key(a.user, a.asset))
               else Quiet(w, w')
  {
    match a
    case Deposit(user, tier, asset, amount) =>
      DepositShape(w, user, tier, asset, amount);
      hide DepositStep;
    case Withdraw(user, tier, asset, amount) =>
      WithdrawShape(w, user, tier, asset, amount);
      hide WithdrawStep;
    case EarlyExit(user, tier, asset, amount) =>
      EarlyExitShape(w, user, tier, asset, amount);
      hide EarlyExitStep;
    case _ =>
      OtherShape(w, a);
  }

  lemma OtherShape(w: World, a: Action)
    requires Configured(w) && Step(w, a).Ok? && !IsMove(a)
    ensures var w' := Step(w, a).value;
            && Configured(w')
            && if a.Relock? then Relocks(w, w', a.tier, Key(a.user, a.asset)) else Quiet(w, w')
  {
    if a.WalletChanges? || a.TokensArrive? {
      TokensOutsideShape(w, a);
    } else if a.SetMaxTvl? || a.SetEmergency? {
      SettingShape(w, a);
    } else {
      hide Holding;
    }
  }

  lemma TokensOutsideShape(w: World, a: Action)
    requires Configured(w) && (a.WalletChanges? || a.TokensArrive?)
    ensures Step(w, a).Ok? && Configured(Step(w, a).value) && Quiet(w, Step(w, a).value)
  {
  }

  lemma SettingShape(w: World, a: Action)
    requires Configured(w) && (a.SetMaxTvl? || a.SetEmergency?) && Step(w, a).Ok?
    ensures Configured(Step(w, a).value) && Quiet(w, Step(w, a).value)
  {
    hide Holding;
  }

  lemma DepositShape(w: World, user: Address, tier: Tier, asset: Address, amount: int)
    requires DepositStep(w, user, tier, asset, amount).Ok?
    ensures var w' := DepositStep(w, user, tier, asset, amount).value;
            0 < |w'.history| && Moves(w, w', LastEntry(w'))
  {
  }

  lemma BurnShape(v: Vault, key: Key, amount: nat)
    requires v.Burn(key, amount).Ok?
    ensures amount <= v.BalanceOf(key)
    ensures amount == v.BalanceOf(key) ==>
              v.Burn(key, amount).value == v.(positions := v.positions - {key}, locks := v.locks - {key})
    ensures amount < v.BalanceOf(key) ==>
              && TruncDiv(v.SharesOf(key) * amount, v.BalanceOf(key)) <= v.SharesOf(key)
              && v.Burn(key, amount).value == v.(positions := v.positions[key :=
                   Position(v.BalanceOf(key) - amount,
                            v.SharesOf(key) - TruncDiv(v.SharesOf(key) * amount, v.BalanceOf(key)))])
  {
    if amount < v.BalanceOf(key) {
      BurnWithinShares(v.BalanceOf(key), v.SharesOf(key), amount);
    }
  }

  /** The entry that an exit leaves behind. */
  function ExitEntry(w: World, event: VaultEvent, gross: int): Entry {
    var v := w.tiers.At(event.tier);
    Moved(event, gross, v.BalanceOf(Key(event.user, event.asset)) == gross, v.EmergencyOn(event.asset), w.now)
  }

  /** Paying out takes the event's amount from the vault's tokens and leaves every other holding alone. */
  lemma PayOutShape(tokens: Tokens, event: VaultEvent, t: Tier, a: Address)
    requires PayOut(tokens, event.asset, event.tier, event.user, event.amount).Ok? && 0 <= event.amount
    ensures Holding(PayOut(tokens, event.asset, event.tier, event.user, event.amount).value, VaultAccount(t), a)
         == Holding(tokens, VaultAccount(t), a) - if t == event.tier && a == event.asset then event.amount else 0
  {
  }

  lemma SettledShape(w: World, event: VaultEvent, gross: int, v': Vault)
    requires Settled(w, event, gross, v').Ok? && event.kind != DepositEvent && 0 <= event.amount
    requires VaultMoves(w.tiers.At(event.tier), v', ExitEntry(w, event, gross))
    ensures var w' := Settled(w, event, gross, v').value;
            0 < |w'.history| && Moves(w, w', LastEntry(w'))
  {
    var w' := Settled(w, event, gross, v').value;
    assert LastEntry(w') == ExitEntry(w, event, gross);
    forall t, a
      ensures w'.VaultHolding(t, a) == w.VaultHolding(t, a) - if t == event.tier && a == event.asset then event.amount else 0
    {
      PayOutShape(w.tokens, event, t, a);
    }
    hide VaultMoves, PayOut, Holding;
  }

  lemma WithdrawShape(w: World, user: Address, tier: Tier, asset: Address, amount: nat)
    requires WithdrawStep(w, user, tier, asset, amount).Ok?
    ensures var w' := WithdrawStep(w, user, tier, asset, amount).value;
            0 < |w'.history| && Moves(w, w', LastEntry(w'))
  {
    var event := VaultEvent(tier, asset, user, WithdrawEvent, amount);
    var v := w.tiers.At(tier);
    BurnShape(v, Key(user, asset), amount);
    WithdrawIsBurn(v, Key(user, asset), amount, w.now);
    hide Vault.Withdraw, Vault.Burn, Settled, Moves;
    SettledShape(w, event, amount, v.Withdraw(Key(user, asset), amount, w.now).value);
  }

  lemma WithdrawIsBurn(v: Vault, key: Key, amount: int, now: nat)
    requires v.Withdraw(key, amount, now).Ok?
    ensures v.Withdraw(key, amount, now) == v.Burn(key, amount)
  {
    hide Vault.Burn;
  }

  /** The exit fee never exceeds the amount. */
  lemma FeeWithinAmount(v: Vault, asset: Address, amount: nat)
    ensures 0 <= v.ExitFee(asset, amount) <= amount
  {
    if v.cfg.Timelocked? {
      MulFpBounds(amount, v.cfg.exitFee);
    }
  }

  lemma EarlyExitIsBurn(v: Vault, key: Key, amount: int)
    requires v.EarlyExit(key, amount).Ok?
    ensures v.EarlyExit(key, amount) == v.Burn(key, amount)
  {
    hide Vault.Burn;
  }

  lemma EarlyExitShape(w: World, user: Address, tier: Tier, asset: Address, amount: nat)
    requires EarlyExitStep(w, user, tier, asset, amount).Ok?
    ensures var w' := EarlyExitStep(w, user, tier, asset, amount).value;
            0 < |w'.history| && Moves(w, w', LastEntry(w'))
  {
    var v := w.tiers.At(tier);
    var event := VaultEvent(tier, asset, user, EarlyExitEvent, v.ExitPayout(asset, amount));
    BurnShape(v, Key(user, asset), amount);
    EarlyExitIsBurn(v, Key(user, asset), amount);
    FeeWithinAmount(v, asset, amount);
    hide Vault.EarlyExit, Vault.Burn, Vault.ExitFee, Settled, Moves;
    SettledShape(w, event, amount, v.EarlyExit(Key(user, asset), amount).value);
  }

  // ---------------------------------------------------------------------------
  // Histories grow by one entry
  // ---------------------------------------------------------------------------

  lemma HistoryGrows(h: seq<Entry>, e: Entry)
    ensures EventsOf(h + [e]) == EventsOf(h) + if e.Moved? then [e.event] else []
    ensures forall t, a :: Fees(h + [e], t, a)
              == Fees(h, t, a) + if e.Tier() == t && e.Key().asset == a then e.Fee() else 0
    ensures forall t :: TierFees(h + [e], t) == TierFees(h, t) + if e.Tier() == t then e.Fee() else 0
    ensures forall t, k :: e.Tier() != t || e.Key() != k ==>
              Deposits(h + [e], t, k) == Deposits(h, t, k) && Burns(h + [e], t, k) == Burns(h, t, k)
  {
    assert (h + [e])[..|h|] == h;
  }

  lemma TalliesGrow(h: seq<Entry>, e: Entry)
    requires e.Moved?
    ensures var d, w := Deposits(h, e.Tier(), e.Key()), Burns(h, e.Tier(), e.Key());
            var d', w' := Deposits(h + [e], e.Tier(), e.Key()), Burns(h + [e], e.Tier(), e.Key());
            if e.closes then d' == w' == 0
            else if e.event.kind == DepositEvent then d' == d + 1 && w' == w
            else d' == d && w' == w + 1
  {
    assert (h + [e])[..|h|] == h;
  }

  // ---------------------------------------------------------------------------
  // The invariants
  // ---------------------------------------------------------------------------

  /** Tokens routed in and not out again are what the users own plus every exit fee charged. */
  ghost predicate Backed(w: World) {
    forall t, a :: w.Routed(t, a) == Owed(w.tiers.At(t), a) + Fees(w.history, t, a)
  }

  /** The published events add up to the tokens routed. */
  ghost predicate Logged(w: World) {
    forall t, a :: Flow(EventsOf(w.history), t, a) == w.Routed(t, a)
  }

  /** Over a whole tier, the published events exceed the recorded balances by the fees. */
  ghost predicate TierLogged(w: World) {
    forall t :: TierFlow(EventsOf(w.history), t) == w.tiers.At(t).TotalBalance() + TierFees(w.history, t)
  }

  ghost predicate FeesKept(w: World) {
    && (forall t, a :: 0 <= Fees(w.history, t, a))
    && (forall t :: 0 <= TierFees(w.history, t))
  }

  /** Deposits and withdrawals move the whole amount, early exits the amount less the floored fee. */
  predicate PaysExactly(e: Entry)
    requires e.Moved?
  {
    && 0 <= e.Fee() <= e.gross
    && e.event.amount == e.gross - e.Fee()
  }

  ghost predicate EntriesExact(w: World) {
    forall i :: 0 <= i < |w.history| && w.history[i].Moved? ==> PaysExactly(w.history[i])
  }

  ghost predicate SharesBounded(w: World) {
    forall t, k :: k in w.tiers.At(t).positions ==> PositionBounded(w.tiers.At(t).positions[k], t)
  }

  predicate PositionBounded(p: Position, tier: Tier) {
    p.balance <= p.shares <= 2 * p.balance && (tier == Flex ==> p.shares == p.balance)
  }

  ghost predicate Drifts(w: World) {
    forall t, k :: k in w.tiers.At(t).positions ==>
      WithinDrift(w.tiers.At(t).positions[k], ConfigOf(t).Multiplier(), Deposits(w.history, t, k), Burns(w.history, t, k))
  }

  /** With no position there is nothing to count. */
  ghost predicate TalliesFresh(w: World) {
    forall t, k :: k !in w.tiers.At(t).positions ==> Deposits(w.history, t, k) == 0 == Burns(w.history, t, k)
  }

  /** A deposit or a relock, which both start the lock anew. */
  predicate StartsLock(e: Entry) {
    e.Relocked? || e.event.kind == DepositEvent
  }

  /** A position's lock runs at least its full duration past every deposit and relock of that key. */
  ghost predicate LocksGuard(w: World) {
    forall t, k :: t != Flex && k in w.tiers.At(t).positions ==> LockGuards(w, t, k)
  }

  ghost predicate LockGuards(w: World, t: Tier, k: Key) {
    && w.tiers.At(t).LockOf(k) <= w.now + ConfigOf(t).LockLength()
    && forall i :: 0 <= i < |w.history| && w.history[i].Tier() == t && w.history[i].Key() == k && StartsLock(w.history[i])
         ==> w.history[i].ledger + ConfigOf(t).LockLength() <= w.tiers.At(t).LockOf(k)
  }

  ghost predicate PastEntries(w: World) {
    forall i :: 0 <= i < |w.history| ==> w.history[i].ledger <= w.now
  }

  ghost predicate Invariant(w: World) {
    && Configured(w)
    && Backed(w)
    && Logged(w)
    && TierLogged(w)
    && FeesKept(w)
    && EntriesExact(w)
    && SharesBounded(w)
    && Drifts(w)
    && TalliesFresh(w)
    && LocksGuard(w)
    && PastEntries(w)
  }

  // ---------------------------------------------------------------------------
  // Each invariant survives each shape
  // ---------------------------------------------------------------------------

  lemma MovesBalances(w: World, w': World, e: Entry, asset: Address)
    requires Moves(w, w', e)
    ensures var t := e.Tier();
            && w'.tiers.At(t).TotalBalance()
               == w.tiers.At(t).TotalBalance() + (if e.event.kind == DepositEvent then e.gross else -e.gross)
            && Owed(w'.tiers.At(t), asset)
               == Owed(w.tiers.At(t), asset)
                  + (if e.Key().asset != asset then 0 else if e.event.kind == DepositEvent then e.gross else -e.gross)
  {
    var v, v', key := w.tiers.At(e.Tier()), w'.tiers.At(e.Tier()), e.Key();
    if e.closes {
      OwedErase(v, key, asset);
      assert v'.positions == v.(positions := v.positions - {key}).positions;
    } else {
      OwedStore(v, key, v'.positions[key], asset);
      assert v'.positions == v.positions[key := v'.positions[key]];
    }
  }

  /** The recorded fee is the vault's own, so the event carries the amount less that fee. */
  lemma MovePaysExactly(v: Vault, v': Vault, e: Entry)
    requires e.Moved? && VaultMoves(v, v', e) && v.cfg == ConfigOf(e.Tier())
    ensures PaysExactly(e)
    ensures e.event.kind == EarlyExitEvent ==> e.Fee() == v.ExitFee(e.event.asset, e.gross)
  {
    MulFpBounds(e.gross, v.cfg.ExitRate());
  }

  lemma BackedMoves(w: World, w': World, e: Entry)
    requires Configured(w) && Backed(w) && FeesKept(w) && Moves(w, w', e)
    ensures Backed(w') && FeesKept(w')
  {
    hide Entry.Fee;
    HistoryGrows(w.history, e);
    MovePaysExactly(w.tiers.At(e.Tier()), w'.tiers.At(e.Tier()), e);
    hide VaultMoves, Owed, Fees, TierFees, World.VaultHolding, World.Arrived;
    forall t, a
      ensures w'.Routed(t, a) == Owed(w'.tiers.At(t), a) + Fees(w'.history, t, a)
    {
      assert w.Routed(t, a) == Owed(w.tiers.At(t), a) + Fees(w.history, t, a);
      if t == e.Tier() {
        MovesBalances(w, w', e, a);
      }
    }
  }

  lemma EntriesExactMoves(w: World, w': World, e: Entry)
    requires Configured(w) && EntriesExact(w) && Moves(w, w', e)
    ensures EntriesExact(w')
  {
    MovePaysExactly(w.tiers.At(e.Tier()), w'.tiers.At(e.Tier()), e);
    hide PaysExactly, VaultMoves;
  }

  lemma LoggedMoves(w: World, w': World, e: Entry)
    requires Configured(w) && Logged(w) && TierLogged(w) && Moves(w, w', e)
    ensures Logged(w') && TierLogged(w')
  {
    hide Entry.Fee;
    HistoryGrows(w.history, e);
    MovePaysExactly(w.tiers.At(e.Tier()), w'.tiers.At(e.Tier()), e);
    forall t, a
      ensures Flow(EventsOf(w'.history), t, a) == w'.Routed(t, a)
    {
      FlowAppend(EventsOf(w.history), e.event, t, a);
      assert Flow(EventsOf(w.history), t, a) == w.Routed(t, a);
    }
    forall t
      ensures TierFlow(EventsOf(w'.history), t) == w'.tiers.At(t).TotalBalance() + TierFees(w'.history, t)
    {
      FlowAppend(EventsOf(w.history), e.event, t, "");
      if t == e.Tier() {
        MovesBalances(w, w', e, "");
      }
    }
  }

  lemma SharesBoundedMoves(w: World, w': World, e: Entry)
    requires Configured(w) && SharesBounded(w) && Moves(w, w', e)
    ensures SharesBounded(w')
  {
    var t, k := e.Tier(), e.Key();
    var v, v' := w.tiers.At(t), w'.tiers.At(t);
    if e.event.kind == DepositEvent {
      MintIsPositive(v.cfg, e.gross);
    } else if !e.closes {
      var p := v.positions[k];
      assert PositionBounded(p, t);
      BurnKeepsShareBounds(p.balance, p.shares, e.gross);
      BurnIsExactAtPar(p.balance, e.gross);
    }
    if k in v.positions {
      assert PositionBounded(v.positions[k], t);
    }
    assert k in v'.positions ==> PositionBounded(v'.positions[k], t);
  }

  lemma DriftsMoves(w: World, w': World, e: Entry)
    requires Configured(w) && Drifts(w) && TalliesFresh(w) && Moves(w, w', e)
    ensures Drifts(w') && TalliesFresh(w')
  {
    HistoryGrows(w.history, e);
    TalliesGrow(w.history, e);
    forall t, k
      ensures k in w'.tiers.At(t).positions ==>
                WithinDrift(w'.tiers.At(t).positions[k], ConfigOf(t).Multiplier(),
                            Deposits(w'.history, t, k), Burns(w'.history, t, k))
      ensures k !in w'.tiers.At(t).positions ==> Deposits(w'.history, t, k) == 0 == Burns(w'.history, t, k)
    {
      if t == e.Tier() && k == e.Key() {
        DriftsMovesHere(w, w', e);
      } else {
        assert k in w'.tiers.At(t).positions <==> k in w.tiers.At(t).positions;
        assert k in w.tiers.At(t).positions ==> w'.tiers.At(t).positions[k] == w.tiers.At(t).positions[k];
      }
    }
  }

  lemma DriftsMovesHere(w: World, w': World, e: Entry)
    requires Configured(w) && Drifts(w) && TalliesFresh(w) && Moves(w, w', e)
    ensures var t, k := e.Tier(), e.Key();
            var v', d, n := w'.tiers.At(t), Deposits(w'.history, t, k), Burns(w'.history, t, k);
            if k in v'.positions then WithinDrift(v'.positions[k], ConfigOf(t).Multiplier(), d, n) else d == 0 == n
  {
    var t, k := e.Tier(), e.Key();
    TalliesGrow(w.history, e);
    assert w.tiers.At(t).cfg == ConfigOf(t);
    hide WithinDrift, Deposits, Burns, ConfigOf;
    VaultMovesDrift(w.tiers.At(t), w'.tiers.At(t), e, Deposits(w.history, t, k), Burns(w.history, t, k));
  }

  lemma VaultMovesDrift(v: Vault, v': Vault, e: Entry, d: nat, n: nat)
    requires e.Moved? && VaultMoves(v, v', e)
    requires if e.Key() in v.positions then WithinDrift(v.positions[e.Key()], v.cfg.Multiplier(), d, n) else d == 0 == n
    ensures e.closes <==> e.Key() !in v'.positions
    ensures !e.closes && e.event.kind == DepositEvent ==>
              WithinDrift(v'.positions[e.Key()], v.cfg.Multiplier(), d + 1, n)
    ensures !e.closes && e.event.kind != DepositEvent ==>
              WithinDrift(v'.positions[e.Key()], v.cfg.Multiplier(), d, n + 1)
  {
    var k := e.Key();
    if e.event.kind == DepositEvent {
      DepositDrift(v.BalanceOf(k), v.SharesOf(k), e.gross, v.cfg, d, n);
    } else if !e.closes {
      BurnDrift(v.positions[k], e.gross, v.cfg.Multiplier(), d, n);
    }
  }

  lemma LocksGuardMoves(w: World, w': World, e: Entry)
    requires Configured(w) && LocksGuard(w) && PastEntries(w) && Moves(w, w', e)
    ensures LocksGuard(w') && PastEntries(w')
  {
    forall t, k | t != Flex && k in w'.tiers.At(t).positions
      ensures LockGuards(w', t, k)
    {
      if t != e.Tier() || k != e.Key() {
        assert k in w.tiers.At(t).positions;
        assert w'.tiers.At(t).LockOf(k) == w.tiers.At(t).LockOf(k);
        assert LockGuards(w, t, k);
      } else if e.event.kind != DepositEvent {
        assert LockGuards(w, t, k);
      }
    }
  }

  lemma LocksGuardRelocks(w: World, w': World, tier: Tier, key: Key)
    requires Configured(w) && LocksGuard(w) && PastEntries(w) && Relocks(w, w', tier, key)
    ensures LocksGuard(w') && PastEntries(w')
  {
    forall t, k | t != Flex && k in w'.tiers.At(t).positions
      ensures LockGuards(w', t, k)
    {
      assert k in w.tiers.At(t).positions;
      assert LockGuards(w, t, k);
    }
  }

  lemma LocksGuardQuiet(w: World, w': World)
    requires LocksGuard(w) && PastEntries(w) && Quiet(w, w')
    ensures LocksGuard(w') && PastEntries(w')
  {
    forall t, k | t != Flex && k in w'.tiers.At(t).positions
      ensures LockGuards(w', t, k)
    {
      assert SamePositions(w, w', t);
      assert LockGuards(w, t, k);
    }
  }

  /** Everything the books are about is as it was. */
  ghost predicate SameBooks(w: World, w': World) {
    && EventsOf(w'.history) == EventsOf(w.history)
    && (forall t :: w'.tiers.At(t).positions == w.tiers.At(t).positions)
    && (forall t, a :: w'.Routed(t, a) == w.Routed(t, a))
    && (forall t, a :: Fees(w'.history, t, a) == Fees(w.history, t, a))
    && (forall t :: TierFees(w'.history, t) == TierFees(w.history, t))
    && (forall t, k :: Deposits(w'.history, t, k) == Deposits(w.history, t, k))
    && (forall t, k :: Burns(w'.history, t, k) == Burns(w.history, t, k))
  }

  lemma SameBooksAccounts(w: World, w': World)
    requires SameBooks(w, w')
    requires Backed(w) && Logged(w) && TierLogged(w) && FeesKept(w)
    ensures Backed(w') && Logged(w') && TierLogged(w') && FeesKept(w')
  {
    forall t, a
      ensures w'.Routed(t, a) == Owed(w'.tiers.At(t), a) + Fees(w'.history, t, a)
      ensures Flow(EventsOf(w'.history), t, a) == w'.Routed(t, a)
    {
      assert w.Routed(t, a) == Owed(w.tiers.At(t), a) + Fees(w.history, t, a);
      assert Flow(EventsOf(w.history), t, a) == w.Routed(t, a);
      assert w'.tiers.At(t).positions == w.tiers.At(t).positions;
    }
    forall t
      ensures TierFlow(EventsOf(w'.history), t) == w'.tiers.At(t).TotalBalance() + TierFees(w'.history, t)
    {
      assert w'.tiers.At(t).positions == w.tiers.At(t).positions;
    }
  }

  lemma SameBooksPositions(w: World, w': World)
    requires SameBooks(w, w')
    requires SharesBounded(w) && Drifts(w) && TalliesFresh(w)
    ensures SharesBounded(w') && Drifts(w') && TalliesFresh(w')
  {
    assert forall t :: w'.tiers.At(t).positions == w.tiers.At(t).positions;
  }

  lemma {:induction false} InvariantStep(w: World, a: Action)
    requires Invariant(w) && NonNegative(a) && Step(w, a).Ok?
    ensures Invariant(Step(w, a).value)
  {
    var w' := Step(w, a).value;
    StepShape(w, a);
    if IsMove(a) {
      var e := LastEntry(w');
      BackedMoves(w, w', e);
      EntriesExactMoves(w, w', e);
      LoggedMoves(w, w', e);
      SharesBoundedMoves(w, w', e);
      DriftsMoves(w, w', e);
      LocksGuardMoves(w, w', e);
    } else if a.Relock? {
      RelockInvariant(w, w', a.tier, Key(a.user, a.asset));
    } else {
      QuietInvariant(w, w');
    }
  }

  lemma RelockInvariant(w: World, w': World, tier: Tier, key: Key)
    requires Invariant(w) && Configured(w') && Relocks(w, w', tier, key)
    ensures Invariant(w')
  {
    HistoryGrows(w.history, Relocked(tier, key, w.now));
    RelockTallies(w.history, Relocked(tier, key, w.now));
    assert SameBooks(w, w');
    SameBooksAccounts(w, w');
    SameBooksPositions(w, w');
    LocksGuardRelocks(w, w', tier, key);
  }

  lemma RelockTallies(h: seq<Entry>, e: Entry)
    requires e.Relocked?
    ensures forall t, k :: Deposits(h + [e], t, k) == Deposits(h, t, k) && Burns(h + [e], t, k) == Burns(h, t, k)
  {
    assert (h + [e])[..|h|] == h;
  }

  lemma QuietInvariant(w: World, w': World)
    requires Invariant(w) && Configured(w') && Quiet(w, w')
    ensures Invariant(w')
  {
    assert forall t :: SamePositions(w, w', t) ==> w'.tiers.At(t).positions == w.tiers.At(t).positions;
    assert SameBooks(w, w');
    SameBooksAccounts(w, w');
    SameBooksPositions(w, w');
    LocksGuardQuiet(w, w');
  }

  lemma GenesisInvariant(w: World)
    requires Genesis(w)
    ensures Invariant(w)
  {
    forall t
      ensures w.tiers.At(t).positions == map[] && w.tiers.At(t).cfg == ConfigOf(t)
    {
      assert FreshVault(w.tiers.At(t), t);
    }
    forall t, a
      ensures Owed(w.tiers.At(t), a) == 0 && w.tiers.At(t).TotalBalance() == 0
    {
      assert AssetBalances(w.tiers.At(t).positions, a) == map[];
      assert Balances(w.tiers.At(t).positions) == map[];
    }
  }

  /** Every state that a run from fresh contracts can reach satisfies every invariant. */
  lemma {:induction false} ReachableInvariant(w: World, actions: seq<Action>)
    requires Genesis(w) && forall a :: a in actions ==> NonNegative(a)
    ensures Invariant(Run(w, actions))
  {
    if |actions| == 0 {
      GenesisInvariant(w);
    } else {
      var before := actions[..|actions| - 1];
      ReachableInvariant(w, before);
      if Step(Run(w, before), actions[|actions| - 1]).Ok? {
        InvariantStep(Run(w, before), actions[|actions| - 1]);
      }
    }
  }
}
