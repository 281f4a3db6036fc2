/**
 The harvester: once a cooldown of ledgers has passed, anyone may have the accumulated
 tokens split into a bounty for the caller and a remainder for the strategy vault.
 */
module Harvesting {
  import opened Common
  import opened FloorArithmetic
  import opened TokenLedger
  import opened Reconcile

  const BOUNTY_BPS: int := 10
  const BPS_DENOMINATOR: int := 10_000

  /** The contract's state with the records of its harvests; `now` is the current ledger. */
  datatype HarvestState = HarvestState(usdc: Address, cooldown: nat, last: nat, tokens: Tokens, now: nat, records: seq<HarvestRecord>) {
    /** The addition saturates at the last 32-bit ledger. */
    function NextLedger(): nat {
      if U32_MAX < last + cooldown then U32_MAX else last + cooldown
    }

    function Yield(): nat {
      Holding(tokens, HarvesterAccount, usdc)
    }
  }

  function Bounty(harvested: nat): int {
    TruncDiv(harvested * BOUNTY_BPS, BPS_DENOMINATOR)
  }

  function SendPositive(tokens: Tokens, usdc: Address, to: Account, amount: int): Result<Tokens> {
    if 0 < amount then Transfer(tokens, usdc, HarvesterAccount, to, amount) else Ok(tokens)
  }

  function HarvestStep(h: HarvestState, caller: Address): Result<HarvestState> {
    var harvested := h.Yield();
    if h.now < h.NextLedger() then Err(CooldownRunning)
    else if harvested == 0 then
      Ok(h.(last := h.now, records := h.records + [HarvestRecord(h.now, 0, 0, 0)]))
    else if !InI128(harvested * BOUNTY_BPS) then Err(Trap)
    else
      var bounty := Bounty(harvested);
      var paid :- SendPositive(h.tokens, h.usdc, Wallet(caller), bounty);
      var sent :- SendPositive(paid, h.usdc, StrategyAccount, harvested - bounty);
      Ok(h.(last := h.now, tokens := sent,
            records := h.records + [HarvestRecord(h.now, harvested, bounty, harvested - bounty)]))
  }

  datatype Event = HarvestBy(caller: Address) | YieldArrives(amount: nat) | AdvanceLedger(ledgers: nat)

  function Apply(h: HarvestState, e: Event): HarvestState {
    match e
    case HarvestBy(caller) => (match HarvestStep(h, caller) case Ok(h') => h' case Err(_) => h)
    case YieldArrives(amount) => h.(tokens := h.tokens[Slot(HarvesterAccount, h.usdc) := h.Yield() + amount])
    case AdvanceLedger(ledgers) => h.(now := h.now + ledgers)
  }

  function Run(h: HarvestState, events: seq<Event>): HarvestState {
    if |events| == 0 then h else Apply(Run(h, events[..|events| - 1]), events[|events| - 1])
  }

  predicate Genesis(h: HarvestState) {
    h.last == 0 && h.records == [] && h.now <= U32_MAX
  }

  // ---------------------------------------------------------------------------
  // Invariants
  // ---------------------------------------------------------------------------

  /** Every record is the exact floored split of what it harvested. */
  predicate SplitExactly(r: HarvestRecord) {
    && 0 <= r.harvested
    && 0 <= r.bounty <= r.harvested
    && r.bounty == TruncDiv(r.harvested * BOUNTY_BPS, BPS_DENOMINATOR)
    && r.remainder == r.harvested - r.bounty
  }

  /** Records are a cooldown apart, or the sum saturated and the later one is at or past the last ledger. */
  predicate Spaced(earlier: HarvestRecord, later: HarvestRecord, cooldown: nat) {
    if earlier.ledger + cooldown <= U32_MAX then earlier.ledger + cooldown <= later.ledger else U32_MAX <= later.ledger
  }

  ghost predicate Invariant(h: HarvestState) {
    && (forall i :: 0 <= i < |h.records| ==> SplitExactly(h.records[i]))
    && (forall i :: 0 <= i < |h.records| - 1 ==> Spaced(h.records[i], h.records[i + 1], h.cooldown))
    && (0 < |h.records| ==> h.records[|h.records| - 1].ledger == h.last)
  }

  lemma BountyWithinYield(harvested: nat)
    ensures 0 <= Bounty(harvested) <= harvested
  {
    assert 0 <= harvested * BOUNTY_BPS;
    CancelAtMost(Bounty(harvested), harvested, BPS_DENOMINATOR);
  }

  lemma HarvestKeepsInvariant(h: HarvestState, caller: Address)
    requires Invariant(h) && HarvestStep(h, caller).Ok?
    ensures Invariant(HarvestStep(h, caller).value)
  {
    BountyWithinYield(h.Yield());
    var r := HarvestStep(h, caller).value.records[|h.records|];
    assert 0 * BOUNTY_BPS == 0;
    assert SplitExactly(r);
    hide SplitExactly, Bounty;
  }

  lemma {:induction false} ReachableInvariant(h: HarvestState, events: seq<Event>)
    requires Genesis(h)
    ensures Invariant(Run(h, events)) && Run(h, events).cooldown == h.cooldown
  {
    if 0 < |events| {
      var before, last := Run(h, events[..|events| - 1]), events[|events| - 1];
      ReachableInvariant(h, events[..|events| - 1]);
      if last.HarvestBy? && HarvestStep(before, last.caller).Ok? {
        HarvestKeepsInvariant(before, last.caller);
      }
    }
  }

  /** A harvest never fails for lack of tokens, and it empties the harvester. */
  lemma HarvestIsCovered(h: HarvestState, caller: Address)
    ensures HarvestStep(h, caller) != Err(InsufficientFunds)
    ensures HarvestStep(h, caller).Ok? ==>
              && HarvestStep(h, caller).value.Yield() == 0
              && Supply(HarvestStep(h, caller).value.tokens, h.usdc) == Supply(h.tokens, h.usdc)
  {
    var harvested := h.Yield();
    var bounty := Bounty(harvested);
    BountyWithinYield(harvested);
    hide Bounty, Supply;
    var paid := SendPositive(h.tokens, h.usdc, Wallet(caller), bounty);
    SendIsCovered(h.tokens, h.usdc, Wallet(caller), bounty);
    SendIsCovered(paid.value, h.usdc, StrategyAccount, harvested - bounty);
  }

  lemma SendIsCovered(tokens: Tokens, usdc: Address, to: Account, amount: nat)
    requires amount <= Holding(tokens, HarvesterAccount, usdc) && to != HarvesterAccount
    ensures SendPositive(tokens, usdc, to, amount).Ok?
    ensures var after := SendPositive(tokens, usdc, to, amount).value;
            && Holding(after, HarvesterAccount, usdc) == Holding(tokens, HarvesterAccount, usdc) - amount
            && Holding(after, to, usdc) == Holding(tokens, to, usdc) + amount
            && (forall o, a :: (o != HarvesterAccount && o != to) || a != usdc ==> Holding(after, o, a) == Holding(tokens, o, a))
            && Supply(after, usdc) == Supply(tokens, usdc)
  {
    if 0 < amount {
      TransferConserves(tokens, usdc, HarvesterAccount, to, amount, usdc);
      hide Supply;
      TransferMoves(tokens, usdc, HarvesterAccount, to, amount);
    }
  }

  /** A harvest moves what its record says: the bounty to the caller, the remainder to the strategy, nothing else. */
  lemma {:induction false} HarvestPaysItsRecord(h: HarvestState, caller: Address, o: Account, a: Address)
    requires HarvestStep(h, caller).Ok?
    ensures var h' := HarvestStep(h, caller).value;
            && |h'.records| == |h.records| + 1
            && var r := h'.records[|h.records|];
               && r.harvested == h.Yield()
               && Holding(h'.tokens, o, a)
                  == Holding(h.tokens, o, a)
                     + (if a != h.usdc then 0 else
                        match o
                        case HarvesterAccount => -r.harvested
                        case StrategyAccount => r.remainder
                        case Wallet(addr) => if addr == caller then r.bounty else 0
                        case VaultAccount(_) => 0)
  {
    var harvested := h.Yield();
    var bounty := Bounty(harvested);
    BountyWithinYield(harvested);
    hide Bounty, Supply;
    var paid := SendPositive(h.tokens, h.usdc, Wallet(caller), bounty);
    SendIsCovered(h.tokens, h.usdc, Wallet(caller), bounty);
    SendIsCovered(paid.value, h.usdc, StrategyAccount, harvested - bounty);
    hide SendPositive, Holding;
  }

  // ---------------------------------------------------------------------------
  // Main results
  // ---------------------------------------------------------------------------

  function Harvested(records: seq<HarvestRecord>): (parts: seq<nat>)
    requires forall i :: 0 <= i < |records| ==> SplitExactly(records[i])
    ensures |parts| == |records|
  {
    if |records| == 0 then [] else
      assert SplitExactly(records[|records| - 1]);
      Harvested(records[..|records| - 1]) + [records[|records| - 1].harvested]
  }

  function TotalBounty(records: seq<HarvestRecord>): int {
    if |records| == 0 then 0 else TotalBounty(records[..|records| - 1]) + records[|records| - 1].bounty
  }

  function TotalRemainder(records: seq<HarvestRecord>): int {
    if |records| == 0 then 0 else TotalRemainder(records[..|records| - 1]) + records[|records| - 1].remainder
  }

  lemma {:induction false} BountiesArePortions(records: seq<HarvestRecord>)
    requires forall i :: 0 <= i < |records| ==> SplitExactly(records[i])
    ensures TotalBounty(records) == TotalPortions(Harvested(records), BOUNTY_BPS, BPS_DENOMINATOR)
    ensures TotalBounty(records) + TotalRemainder(records) == Total(Harvested(records))
  {
    if 0 < |records| {
      var before := records[..|records| - 1];
      BountiesArePortions(before);
      assert Harvested(records)[..|records| - 1] == Harvested(before);
      assert SplitExactly(records[|records| - 1]);
    }
  }

  /** Over any run the bounties come to 10 bps of everything harvested, rounded down, and at most one unit less a harvest. */
  lemma {:induction false} BountiesAreTenBps(h: HarvestState, events: seq<Event>)
    requires Genesis(h)
    ensures var records := Run(h, events).records;
            && (forall i :: 0 <= i < |records| ==> SplitExactly(records[i]))
            && var total := Total(Harvested(records));
               && TotalBounty(records) + TotalRemainder(records) == total
               && TotalBounty(records) <= Bounty(total)
               && (0 < |records| ==> Bounty(total) <= TotalBounty(records) + |records| - 1)
               && total + Run(h, events).Yield() == h.Yield() + Arrivals(events)
               && Holding(Run(h, events).tokens, StrategyAccount, h.usdc)
                  == Holding(h.tokens, StrategyAccount, h.usdc) + total - TotalBounty(records)
  {
    RunsPayTheirRecords(h, events, "");
    ReachableInvariant(h, events);
    var records := Run(h, events).records;
    BountiesArePortions(records);
    PortionsOfParts(Harvested(records), BOUNTY_BPS, BPS_DENOMINATOR);
  }

  /** The bounties of the harvests that this caller made. */
  function Earned(h: HarvestState, events: seq<Event>, caller: Address): int {
    if |events| == 0 then 0 else
      var before, last := Run(h, events[..|events| - 1]), events[|events| - 1];
      Earned(h, events[..|events| - 1], caller)
      + if last == HarvestBy(caller) && HarvestStep(before, caller).Ok? then Bounty(before.Yield()) else 0
  }

  /** What reached the harvester's account in the course of a run. */
  function Arrivals(events: seq<Event>): nat {
    if |events| == 0 then 0 else
      var last := events[|events| - 1];
      Arrivals(events[..|events| - 1]) + if last.YieldArrives? then last.amount else 0
  }

  lemma LastRecord(h: HarvestState, caller: Address)
    requires HarvestStep(h, caller).Ok?
    ensures var records := HarvestStep(h, caller).value.records;
            && |records| == |h.records| + 1 && records[..|h.records|] == h.records
            && records[|h.records|].bounty == Bounty(h.Yield())
            && records[|h.records|].bounty + records[|h.records|].remainder == h.Yield()
            && HarvestStep(h, caller).value.usdc == h.usdc
  {
    assert 0 * BOUNTY_BPS == 0;
  }

  /**
   Over any run the strategy receives the recorded remainders, each caller the bounties of its
   own harvests, and all that arrived is in a record or still there.
   */
  lemma {:induction false} RunsPayTheirRecords(h: HarvestState, events: seq<Event>, caller: Address)
    requires Genesis(h)
    ensures Run(h, events).usdc == h.usdc
    ensures Holding(Run(h, events).tokens, StrategyAccount, h.usdc)
         == Holding(h.tokens, StrategyAccount, h.usdc) + TotalRemainder(Run(h, events).records)
    ensures Holding(Run(h, events).tokens, Wallet(caller), h.usdc)
         == Holding(h.tokens, Wallet(caller), h.usdc) + Earned(h, events, caller)
    ensures TotalBounty(Run(h, events).records) + TotalRemainder(Run(h, events).records) + Run(h, events).Yield()
         == h.Yield() + Arrivals(events)
  {
    if 0 < |events| {
      var before, last := Run(h, events[..|events| - 1]), events[|events| - 1];
      RunsPayTheirRecords(h, events[..|events| - 1], caller);
      if last.HarvestBy? && HarvestStep(before, last.caller).Ok? {
        HarvestPaysItsRecord(before, last.caller, StrategyAccount, h.usdc);
        HarvestPaysItsRecord(before, last.caller, Wallet(caller), h.usdc);
        HarvestIsCovered(before, last.caller);
        LastRecord(before, last.caller);
        hide HarvestStep, Bounty, Holding;
      }
    }
  }

  /**
   A harvest succeeds if and only if the ledger has reached the saturated sum of last harvest
   and cooldown and ten times the yield fits 128 bits. It then records the present ledger.
   */
  lemma HarvestAnswers(h: HarvestState, caller: Address)
    ensures var r := HarvestStep(h, caller);
            var due := h.now >= U32_MAX || h.last + h.cooldown <= h.now;
            var fits := InI128(h.Yield() * 10);
            && (r == Err(CooldownRunning) <==> !due)
            && (r == Err(Trap) <==> due && !fits)
            && (r.Ok? <==> due && fits)
            && (r.Ok? ==>
                  && r.value.last == h.now
                  && |r.value.records| == |h.records| + 1
                  && r.value.records[..|h.records|] == h.records
                  && r.value.records[|h.records|].ledger == h.now
                  && r.value.records[|h.records|].harvested == h.Yield())
  {
    HarvestIsCovered(h, caller);
    HarvestErrors(h, caller);
    if HarvestStep(h, caller).Ok? {
      LastRecord(h, caller);
    }
    hide Bounty, SendPositive;
  }

  lemma HarvestErrors(h: HarvestState, caller: Address)
    ensures HarvestStep(h, caller).Err? ==> HarvestStep(h, caller).error in {CooldownRunning, Trap, InsufficientFunds}
  {
    hide Bounty;
  }

  /** Successive harvests lie at least a cooldown apart, as long as the addition does not saturate. */
  lemma {:induction false} HarvestsAreSpaced(h: HarvestState, events: seq<Event>, i: nat)
    requires Genesis(h) && i + 1 < |Run(h, events).records|
    ensures var records := Run(h, events).records;
            Spaced(records[i], records[i + 1], h.cooldown)
  {
    ReachableInvariant(h, events);
  }

  /** The off-chain split check finds nothing wrong with any harvest. */
  lemma {:induction false} HarvestsReconcile(h: HarvestState, events: seq<Event>, r: HarvestRecord)
    requires Genesis(h) && r in Run(h, events).records
    ensures AddsUp(r)
  {
    ReachableInvariant(h, events);
    var records := Run(h, events).records;
    var i :| 0 <= i < |records| && records[i] == r;
    assert SplitExactly(records[i]);
  }

  // ---------------------------------------------------------------------------
  // The contract
  // ---------------------------------------------------------------------------

  class Harvester {
    const usdc: Address
    const cooldown: nat
    var lastHarvestLedger: nat
    var tokens: Tokens
    var records: seq<HarvestRecord>

    ghost function View(now: nat): HarvestState
      reads this
    {
      HarvestState(usdc, cooldown, lastHarvestLedger, tokens, now, records)
    }

    constructor (usdc: Address, cooldown: nat, tokens: Tokens)
      ensures forall now :: View(now) == HarvestState(usdc, cooldown, 0, tokens, now, [])
    {
      this.usdc, this.cooldown, this.tokens := usdc, cooldown, tokens;
      lastHarvestLedger, records := 0, [];
    }

    /** Returns the amount harvested. Both transfers are covered, so neither can fail. */
    method Harvest(caller: Address, now: nat) returns (r: Result<int>)
      modifies this
      ensures match HarvestStep(old(View(now)), caller)
              case Ok(h) => r == Ok(old(Holding(tokens, HarvesterAccount, usdc))) && View(now) == h
              case Err(e) => r == Err(e) && View(now) == old(View(now))
    {
      var next := if U32_MAX < lastHarvestLedger + cooldown then U32_MAX else lastHarvestLedger + cooldown;
      if now < next {
        return Err(CooldownRunning);
      }
      var harvested := Holding(tokens, HarvesterAccount, usdc);
      if harvested == 0 {
        lastHarvestLedger := now;
        records := records + [HarvestRecord(now, 0, 0, 0)];
        return Ok(0);
      }
      if !InI128(harvested * BOUNTY_BPS) {
        return Err(Trap);
      }
      var bounty := Bounty(harvested);
      var remainder := harvested - bounty;
      BountyWithinYield(harvested);
      if 0 < bounty {
        var paid := Transfer(tokens, usdc, HarvesterAccount, Wallet(caller), bounty);
        tokens := paid.value;
      }
      if 0 < remainder {
        var sent := Transfer(tokens, usdc, HarvesterAccount, StrategyAccount, remainder);
        tokens := sent.value;
      }
      lastHarvestLedger := now;
      records := records + [HarvestRecord(now, harvested, bounty, remainder)];
      return Ok(harvested);
    }
  }
}
