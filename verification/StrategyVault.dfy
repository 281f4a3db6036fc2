/**
 The strategy vault: which pools may receive capital, how much each gets, and the
 rebalance that hands the capital out while keeping a buffer back.
 */
module StrategyVaults {
  import opened Common
  import opened FloorArithmetic
  import opened MapSums
  import opened TokenLedger

  const MAX_ALLOC_BPS: int := 3_500
  const BPS_DENOM: int := 10_000
  const DEFAULT_BUFFER_BPS: int := 500

  /** Who can stand behind a call: an account that signs, or one of the two contracts calling on. */
  datatype Party = Account(addr: Address) | GovernanceContract | MultisigContract

  // ---------------------------------------------------------------------------
  // Allocations
  // ---------------------------------------------------------------------------

  /** The sum over the other pools, in the order the loop meets them. */
  function OthersOf(allocations: map<Address, int>, pool: Address, order: seq<Address>): int {
    if |order| == 0 then 0 else
      var last := order[|order| - 1];
      OthersOf(allocations, pool, order[..|order| - 1]) + if last == pool then 0 else At(allocations, last)
  }

  /** No addition on the way to the new total overflows. */
  ghost predicate PrefixesFit(allocations: map<Address, int>, pool: Address, order: seq<Address>) {
    forall n :: 0 <= n <= |order| ==> InI128(OthersOf(allocations, pool, order[..n]))
  }

  ghost predicate SumsFit(allocations: map<Address, int>, pool: Address, bps: int, order: seq<Address>) {
    && PrefixesFit(allocations, pool, order)
    && InI128(OthersOf(allocations, pool, order) + bps)
  }

  datatype Strategy = Strategy(admin: Party, pools: set<Address>, allocations: map<Address, int>) {
    function AllowPool(caller: Party, pool: Address): Result<Strategy> {
      if caller != admin then Err(Unauthorized) else Ok(this.(pools := pools + {pool}))
    }

    /**
     The pool must be allowed, its share at most 35%, and all shares together at most 100%.
     `order` is the order in which the host iterates the stored map to add the others up.
     */
    ghost function SetAllocation(caller: Party, pool: Address, bps: int, order: seq<Address>): Result<Strategy> {
      if caller != admin then Err(Unauthorized)
      else if pool !in pools then Err(PoolNotAllowed)
      else if MAX_ALLOC_BPS < bps then Err(AllocationCapExceeded)
      else if !SumsFit(allocations, pool, bps, order) then Err(Trap)
      else if BPS_DENOM < Sum(allocations - {pool}) + bps then Err(AllocationCapExceeded)
      else Ok(this.(allocations := allocations[pool := bps]))
    }

    /** Every share lies in [0, 35%] on an allowed pool, and they sum to at most 100%. */
    ghost predicate WithinCaps() {
      && (forall p :: p in allocations ==> p in pools && 0 <= allocations[p] <= MAX_ALLOC_BPS)
      && Sum(allocations) <= BPS_DENOM
    }
  }

  /** A share that is not negative keeps the caps; setting one is where the sum is checked. */
  lemma SetAllocationKeepsCaps(s: Strategy, caller: Party, pool: Address, bps: int, order: seq<Address>)
    requires s.WithinCaps() && s.SetAllocation(caller, pool, bps, order).Ok?
    ensures s.SetAllocation(caller, pool, bps, order).value.WithinCaps() <==> 0 <= bps
  {
    var after := s.allocations[pool := bps];
    assert after - {pool} == s.allocations - {pool};
    SumRemove(after, pool);
    assert after[pool] == bps;
  }

  // ---------------------------------------------------------------------------
  // Rebalancing
  // ---------------------------------------------------------------------------

  /** An order in which a map's entries can be visited. */
  ghost predicate Enumerates(order: seq<Address>, m: map<Address, int>) {
    && (forall i, j :: 0 <= i < j < |order| ==> order[i] != order[j])
    && (forall p :: p in order <==> p in m)
  }

  function Reserved(total: int, bufferBps: int): int {
    TruncDiv(total * bufferBps, BPS_DENOM)
  }

  /** One pool's share of the deployable amount. */
  function Target(deployable: int, bps: int): int {
    TruncDiv(deployable * bps, BPS_DENOM)
  }

  /** Pays the pools in order; a product that overflows or a transfer that is not covered stops everything. */
  function PayPools(tokens: Tokens, usdc: Address, deployable: int, allocations: map<Address, int>, order: seq<Address>)
    : Result<Tokens>
    requires forall p :: p in order ==> p in allocations
  {
    if |order| == 0 then Ok(tokens) else
      var before :- PayPools(tokens, usdc, deployable, allocations, order[..|order| - 1]);
      var pool := order[|order| - 1];
      if !InI128(deployable * allocations[pool]) then Err(Trap)
      else
        var target := Target(deployable, allocations[pool]);
        if 0 < target then Transfer(before, usdc, StrategyAccount, Wallet(pool), target) else Ok(before)
  }

  function Rebalanced(tokens: Tokens, usdc: Address, bufferBps: int, allocations: map<Address, int>, order: seq<Address>)
    : Result<Tokens>
    requires forall p :: p in order ==> p in allocations
  {
    var total := Holding(tokens, StrategyAccount, usdc);
    if !InI128(total * bufferBps) then Err(Trap)
    else PayPools(tokens, usdc, total - Reserved(total, bufferBps), allocations, order)
  }

  /** The targets of the pools visited so far. */
  function Paid(deployable: int, allocations: map<Address, int>, order: seq<Address>): int
    requires forall p :: p in order ==> p in allocations
  {
    if |order| == 0 then 0 else
      Paid(deployable, allocations, order[..|order| - 1]) + Target(deployable, allocations[order[|order| - 1]])
  }

  function SharesOf(allocations: map<Address, int>, order: seq<Address>): int
    requires forall p :: p in order ==> p in allocations
  {
    if |order| == 0 then 0 else SharesOf(allocations, order[..|order| - 1]) + allocations[order[|order| - 1]]
  }

  predicate SharesAllowed(allocations: map<Address, int>) {
    forall p :: p in allocations ==> 0 <= allocations[p] <= MAX_ALLOC_BPS
  }

  /** Any order of visiting adds up to the same sum. */
  lemma {:induction false} SharesSumInAnyOrder(allocations: map<Address, int>, order: seq<Address>)
    requires Enumerates(order, allocations)
    ensures SharesOf(allocations, order) == Sum(allocations)
    decreases |order|
  {
    if |order| == 0 {
      assert allocations.Keys == {};
      assert allocations == map[];
    } else {
      var before, pool := order[..|order| - 1], order[|order| - 1];
      var rest := allocations - {pool};
      SumRemove(allocations, pool);
      assert forall p :: p in before <==> p in rest;
      SharesSumInAnyOrder(rest, before);
      SharesOfAgree(allocations, rest, before);
    }
  }

  lemma {:induction false} SharesOfAgree(m: map<Address, int>, n: map<Address, int>, order: seq<Address>)
    requires forall p :: p in order ==> p in m && p in n && m[p] == n[p]
    ensures SharesOf(m, order) == SharesOf(n, order)
  {
    if 0 < |order| {
      SharesOfAgree(m, n, order[..|order| - 1]);
    }
  }

  /** The floored targets stay below the exact shares, by less than one unit a pool. */
  lemma {:induction false} TargetsFollowShares(deployable: nat, allocations: map<Address, int>, order: seq<Address>)
    requires SharesAllowed(allocations) && forall p :: p in order ==> p in allocations
    ensures 0 <= Paid(deployable, allocations, order)
    ensures 0 <= SharesOf(allocations, order)
    ensures Paid(deployable, allocations, order) * BPS_DENOM <= deployable * SharesOf(allocations, order)
    ensures deployable * SharesOf(allocations, order) <= (Paid(deployable, allocations, order) + |order|) * BPS_DENOM
    ensures 0 < |order| ==>
              deployable * SharesOf(allocations, order) < (Paid(deployable, allocations, order) + |order|) * BPS_DENOM
  {
    if 0 < |order| {
      var before, bps := order[..|order| - 1], allocations[order[|order| - 1]];
      TargetsFollowShares(deployable, allocations, before);
      assert deployable * SharesOf(allocations, order)
          == deployable * SharesOf(allocations, before) + deployable * bps;
      assert 0 <= deployable * bps;
    }
  }

  /** No pool gets more than 35% of what is deployed. */
  lemma TargetAtMostCap(deployable: nat, bps: int)
    requires 0 <= bps <= MAX_ALLOC_BPS
    ensures 0 <= Target(deployable, bps) <= Target(deployable, MAX_ALLOC_BPS) <= deployable
  {
    MulMonotone(bps, MAX_ALLOC_BPS, deployable);
    assert 0 <= deployable * bps <= deployable * MAX_ALLOC_BPS;
    CancelLess(Target(deployable, bps), Target(deployable, MAX_ALLOC_BPS) + 1, BPS_DENOM);
    CancelAtMost(Target(deployable, MAX_ALLOC_BPS), deployable, BPS_DENOM);
  }

  /** What the pools hold after a number of payments, and what is left. */
  ghost predicate PaidOut(tokens: Tokens, after: Tokens, usdc: Address, deployable: int,
                          allocations: map<Address, int>, order: seq<Address>)
    requires forall p :: p in order ==> p in allocations
  {
    && Holding(after, StrategyAccount, usdc) == Holding(tokens, StrategyAccount, usdc) - Paid(deployable, allocations, order)
    && (forall p :: p in order ==>
          Holding(after, Wallet(p), usdc) == Holding(tokens, Wallet(p), usdc) + Target(deployable, allocations[p]))
    && (forall o, a :: a != usdc || (o != StrategyAccount && (o.Wallet? ==> o.addr !in order)) ==>
          Holding(after, o, a) == Holding(tokens, o, a))
  }

  /** While the deployable amount covers the shares, every payment in any order is covered. */
  lemma {:induction false} PaymentsAreCovered(tokens: Tokens, usdc: Address, deployable: nat,
                                              allocations: map<Address, int>, order: seq<Address>)
    requires SharesAllowed(allocations) && InI128(deployable * MAX_ALLOC_BPS)
    requires forall i, j :: 0 <= i < j < |order| ==> order[i] != order[j]
    requires forall p :: p in order ==> p in allocations
    requires SharesOf(allocations, order) <= BPS_DENOM
    requires deployable <= Holding(tokens, StrategyAccount, usdc)
    ensures PayPools(tokens, usdc, deployable, allocations, order).Ok?
    ensures PaidOut(tokens, PayPools(tokens, usdc, deployable, allocations, order).value, usdc, deployable, allocations, order)
    ensures Paid(deployable, allocations, order) <= deployable
  {
    PaidWithinDeployable(deployable, allocations, order);
    if 0 < |order| {
      var before, pool := order[..|order| - 1], order[|order| - 1];
      SharesNonnegative(allocations, order);
      PaymentsAreCovered(tokens, usdc, deployable, allocations, before);
      PaymentStep(tokens, PayPools(tokens, usdc, deployable, allocations, before).value, usdc, deployable, allocations, order);
    }
  }

  lemma SharesNonnegative(allocations: map<Address, int>, order: seq<Address>)
    requires SharesAllowed(allocations) && 0 < |order| && forall p :: p in order ==> p in allocations
    ensures SharesOf(allocations, order[..|order| - 1]) <= SharesOf(allocations, order)
  {
  }

  lemma PaidWithinDeployable(deployable: nat, allocations: map<Address, int>, order: seq<Address>)
    requires SharesAllowed(allocations) && forall p :: p in order ==> p in allocations
    requires SharesOf(allocations, order) <= BPS_DENOM
    ensures 0 <= Paid(deployable, allocations, order) <= deployable
  {
    TargetsFollowShares(deployable, allocations, order);
    MulMonotone(SharesOf(allocations, order), BPS_DENOM, deployable);
    CancelAtMost(Paid(deployable, allocations, order), deployable, BPS_DENOM);
  }

  lemma PaymentStep(tokens: Tokens, mid: Tokens, usdc: Address, deployable: nat,
                    allocations: map<Address, int>, order: seq<Address>)
    requires SharesAllowed(allocations) && InI128(deployable * MAX_ALLOC_BPS) && 0 < |order|
    requires forall i, j :: 0 <= i < j < |order| ==> order[i] != order[j]
    requires forall p :: p in order ==> p in allocations
    requires Paid(deployable, allocations, order) <= Holding(tokens, StrategyAccount, usdc)
    requires PayPools(tokens, usdc, deployable, allocations, order[..|order| - 1]) == Ok(mid)
    requires PaidOut(tokens, mid, usdc, deployable, allocations, order[..|order| - 1])
    ensures PayPools(tokens, usdc, deployable, allocations, order).Ok?
    ensures PaidOut(tokens, PayPools(tokens, usdc, deployable, allocations, order).value, usdc, deployable, allocations, order)
  {
    var before, pool := order[..|order| - 1], order[|order| - 1];
    ProductWithinCap(deployable, allocations[pool]);
    assert Holding(mid, StrategyAccount, usdc) == Holding(tokens, StrategyAccount, usdc) - Paid(deployable, allocations, before);
    var after := PayPools(tokens, usdc, deployable, allocations, order).value;
    OnePayment(mid, after, usdc, pool, Target(deployable, allocations[pool]));
    hide PayPools, Transfer, PaidOut;
    PaidOutExtends(tokens, mid, after, usdc, deployable, allocations, order);
  }

  /** `after` is `mid` with one more amount moved from the strategy to a pool. */
  ghost predicate MovedTo(mid: Tokens, after: Tokens, usdc: Address, pool: Address, target: int) {
    && Holding(after, StrategyAccount, usdc) == Holding(mid, StrategyAccount, usdc) - target
    && Holding(after, Wallet(pool), usdc) == Holding(mid, Wallet(pool), usdc) + target
    && forall o, a :: a != usdc || (o != StrategyAccount && o != Wallet(pool)) ==> Holding(after, o, a) == Holding(mid, o, a)
  }

  lemma OnePayment(mid: Tokens, after: Tokens, usdc: Address, pool: Address, target: nat)
    requires if 0 < target then Transfer(mid, usdc, StrategyAccount, Wallet(pool), target) == Ok(after) else after == mid
    ensures MovedTo(mid, after, usdc, pool, target)
  {
    if 0 < target {
      TransferMoves(mid, usdc, StrategyAccount, Wallet(pool), target);
    }
  }

  lemma PaidOutExtends(tokens: Tokens, mid: Tokens, after: Tokens, usdc: Address, deployable: int,
                       allocations: map<Address, int>, order: seq<Address>)
    requires 0 < |order| && forall i, j :: 0 <= i < j < |order| ==> order[i] != order[j]
    requires forall p :: p in order ==> p in allocations
    requires PaidOut(tokens, mid, usdc, deployable, allocations, order[..|order| - 1])
    requires MovedTo(mid, after, usdc, order[|order| - 1], Target(deployable, allocations[order[|order| - 1]]))
    ensures PaidOut(tokens, after, usdc, deployable, allocations, order)
  {
    hide Holding, Target;
    var before, pool := order[..|order| - 1], order[|order| - 1];
    assert pool !in before;
    assert forall p :: p in order <==> p in before || p == pool;
  }

  lemma ProductWithinCap(deployable: nat, bps: int)
    requires 0 <= bps <= MAX_ALLOC_BPS && InI128(deployable * MAX_ALLOC_BPS)
    ensures InI128(deployable * bps) && 0 <= Target(deployable, bps)
  {
    MulMonotone(bps, MAX_ALLOC_BPS, deployable);
    assert 0 <= deployable * bps <= deployable * MAX_ALLOC_BPS;
  }

  /** What a rebalance promises about the strategy's own holding and about each pool. */
  ghost predicate KeepsBuffer(tokens: Tokens, after: Tokens, usdc: Address, bufferBps: int, allocations: map<Address, int>) {
    var total, idle := Holding(tokens, StrategyAccount, usdc), Holding(after, StrategyAccount, usdc);
    var reserved := Reserved(total, bufferBps);
    var deployable := total - reserved;
    && reserved <= idle <= total
    && (forall p :: p in allocations ==>
          var gain := Holding(after, Wallet(p), usdc) - Holding(tokens, Wallet(p), usdc);
          0 <= gain <= Target(deployable, MAX_ALLOC_BPS))
    && Supply(after, usdc) == Supply(tokens, usdc)
    && deployable * Sum(allocations) < (total - idle + (if allocations == map[] then 1 else |allocations|)) * BPS_DENOM
  }

  lemma {:induction false} PayPoolsConserves(tokens: Tokens, usdc: Address, deployable: int,
                                             allocations: map<Address, int>, order: seq<Address>)
    requires forall p :: p in order ==> p in allocations
    requires PayPools(tokens, usdc, deployable, allocations, order).Ok?
    ensures Supply(PayPools(tokens, usdc, deployable, allocations, order).value, usdc) == Supply(tokens, usdc)
  {
    if 0 < |order| {
      var before, pool := order[..|order| - 1], order[|order| - 1];
      PayPoolsConserves(tokens, usdc, deployable, allocations, before);
      var mid := PayPools(tokens, usdc, deployable, allocations, before).value;
      var target := Target(deployable, allocations[pool]);
      if 0 < target {
        TransferConserves(mid, usdc, StrategyAccount, Wallet(pool), target, usdc);
      }
    }
  }

  lemma ReserveWithinTotal(total: nat, bufferBps: int)
    requires 0 <= bufferBps <= BPS_DENOM
    ensures 0 <= Reserved(total, bufferBps) <= total
  {
    assert 0 <= total * bufferBps;
    MulMonotone(bufferBps, BPS_DENOM, total);
    CancelAtMost(Reserved(total, bufferBps), total, BPS_DENOM);
  }

  lemma EnumerationLength(order: seq<Address>, m: map<Address, int>)
    requires Enumerates(order, m)
    ensures |order| == |m|
    decreases |order|
  {
    if |order| == 0 {
      assert m.Keys == {};
    } else {
      var before, last := order[..|order| - 1], order[|order| - 1];
      assert forall p :: p in before <==> p in m - {last};
      EnumerationLength(before, m - {last});
      assert m.Keys == (m - {last}).Keys + {last};
    }
  }

  function Deployable(tokens: Tokens, usdc: Address, bufferBps: int): int {
    Holding(tokens, StrategyAccount, usdc) - Reserved(Holding(tokens, StrategyAccount, usdc), bufferBps)
  }

  /** A rebalance within the caps goes through and pays every pool its target. */
  lemma RebalancePays(tokens: Tokens, usdc: Address, bufferBps: int, s: Strategy, order: seq<Address>)
    requires s.WithinCaps() && Enumerates(order, s.allocations)
    requires 0 <= bufferBps <= BPS_DENOM
    requires InI128(Holding(tokens, StrategyAccount, usdc) * BPS_DENOM)
    ensures 0 <= Deployable(tokens, usdc, bufferBps) <= Holding(tokens, StrategyAccount, usdc)
    ensures Rebalanced(tokens, usdc, bufferBps, s.allocations, order).Ok?
    ensures var after := Rebalanced(tokens, usdc, bufferBps, s.allocations, order).value;
            && PaidOut(tokens, after, usdc, Deployable(tokens, usdc, bufferBps), s.allocations, order)
            && Supply(after, usdc) == Supply(tokens, usdc)
    ensures Paid(Deployable(tokens, usdc, bufferBps), s.allocations, order) <= Deployable(tokens, usdc, bufferBps)
  {
    hide PayPools, Paid, PaidOut, SharesOf, TruncDiv, Reserved, Supply;
    var total := Holding(tokens, StrategyAccount, usdc);
    var deployable := Deployable(tokens, usdc, bufferBps);
    ReserveWithinTotal(total, bufferBps);
    ProductsFit(total, deployable, bufferBps);
    SharesSumInAnyOrder(s.allocations, order);
    PaymentsAreCovered(tokens, usdc, deployable, s.allocations, order);
    PayPoolsConserves(tokens, usdc, deployable, s.allocations, order);
  }

  /**
   For any allocations within the caps, whichever order the pools are visited in, a rebalance
   goes through, keeps the buffer idle, gives no pool more than 35% of the rest, conserves the
   tokens, and leaves behind less than one unit a pool by rounding.
   */
  lemma RebalanceKeepsBuffer(tokens: Tokens, usdc: Address, bufferBps: int, s: Strategy, order: seq<Address>)
    requires s.WithinCaps() && Enumerates(order, s.allocations)
    requires 0 <= bufferBps <= BPS_DENOM
    requires InI128(Holding(tokens, StrategyAccount, usdc) * BPS_DENOM)
    ensures Rebalanced(tokens, usdc, bufferBps, s.allocations, order).Ok?
    ensures KeepsBuffer(tokens, Rebalanced(tokens, usdc, bufferBps, s.allocations, order).value, usdc, bufferBps, s.allocations)
  {
    hide Rebalanced, Paid, SharesOf, Target, Reserved;
    RebalancePays(tokens, usdc, bufferBps, s, order);
    var after := Rebalanced(tokens, usdc, bufferBps, s.allocations, order).value;
    var deployable := Deployable(tokens, usdc, bufferBps);
    SharesSumInAnyOrder(s.allocations, order);
    TargetsFollowShares(deployable, s.allocations, order);
    EnumerationLength(order, s.allocations);
    forall p | p in s.allocations
      ensures p in order && 0 <= Target(deployable, s.allocations[p]) <= Target(deployable, MAX_ALLOC_BPS)
    {
      TargetAtMostCap(deployable, s.allocations[p]);
    }
  }

  lemma ProductsFit(total: nat, deployable: nat, bufferBps: int)
    requires deployable <= total && 0 <= bufferBps <= BPS_DENOM && InI128(total * BPS_DENOM)
    ensures InI128(total * bufferBps) && InI128(deployable * MAX_ALLOC_BPS)
  {
    assert 0 <= total * bufferBps;
    MulMonotone(bufferBps, BPS_DENOM, total);
    MulMonotone(deployable, total, MAX_ALLOC_BPS);
    MulMonotone(MAX_ALLOC_BPS, BPS_DENOM, total);
  }

  /** The floor of a ratio, told by what it lies between. */
  predicate IsFloor(q: int, a: int, b: int) {
    q * b <= a < (q + 1) * b
  }

  lemma FloorIsUnique(p: int, q: int, a: int, b: Positive)
    requires IsFloor(p, a, b) && IsFloor(q, a, b)
    ensures p == q
  {
    CancelLess(p, q + 1, b);
    CancelLess(q, p + 1, b);
  }

  /**
   In the holdings themselves: with r the buffer's share of the whole, rounded down, at least r
   stays idle, and pool p gains its share of the rest, rounded down, to the unit.
   */
  lemma RebalanceGainsExactly(tokens: Tokens, usdc: Address, bufferBps: int, s: Strategy, order: seq<Address>, r: int, p: Address)
    requires s.WithinCaps() && Enumerates(order, s.allocations)
    requires 0 <= bufferBps <= 10_000
    requires InI128(Holding(tokens, StrategyAccount, usdc) * 10_000)
    requires IsFloor(r, Holding(tokens, StrategyAccount, usdc) * bufferBps, 10_000)
    ensures Rebalanced(tokens, usdc, bufferBps, s.allocations, order).Ok?
    ensures var after := Rebalanced(tokens, usdc, bufferBps, s.allocations, order).value;
            var total, idle := Holding(tokens, StrategyAccount, usdc), Holding(after, StrategyAccount, usdc);
            var gain := Holding(after, Wallet(p), usdc) - Holding(tokens, Wallet(p), usdc);
            && r <= idle
            && total * bufferBps < (idle + 1) * 10_000
            && if p in s.allocations then IsFloor(gain, (total - r) * s.allocations[p], 10_000) else gain == 0
  {
    hide Rebalanced, Target, Reserved, Paid, Holding, IsFloor, Strategy.WithinCaps, Supply;
    var total := Holding(tokens, StrategyAccount, usdc);
    RebalancePays(tokens, usdc, bufferBps, s, order);
    ReservedIsFloor(total, bufferBps, r);
    BufferCovered(total, bufferBps, r, Holding(Rebalanced(tokens, usdc, bufferBps, s.allocations, order).value, StrategyAccount, usdc));
    if p in s.allocations {
      ShareOf(s, p);
      TargetIsFloor(total - r, s.allocations[p]);
    }
  }

  lemma ShareOf(s: Strategy, p: Address)
    requires s.WithinCaps() && p in s.allocations
    ensures 0 <= s.allocations[p] <= MAX_ALLOC_BPS
  {
  }

  lemma ReservedIsFloor(total: nat, bufferBps: nat, r: int)
    requires IsFloor(r, total * bufferBps, 10_000)
    ensures r == Reserved(total, bufferBps)
  {
    assert 0 <= total * bufferBps;
    FloorIsUnique(r, Reserved(total, bufferBps), total * bufferBps, 10_000);
  }

  lemma TargetIsFloor(deployable: nat, bps: nat)
    ensures IsFloor(Target(deployable, bps), deployable * bps, 10_000)
  {
    assert 0 <= deployable * bps;
  }

  lemma BufferCovered(total: int, bufferBps: int, r: int, idle: int)
    requires IsFloor(r, total * bufferBps, 10_000)
    ensures r <= idle ==> total * bufferBps < (idle + 1) * 10_000
  {
  }

  /** Payments go through only if every product fits; one that does not stops them all. */
  lemma {:induction false} PaymentsMustFit(tokens: Tokens, usdc: Address, deployable: int,
                                           allocations: map<Address, int>, order: seq<Address>, p: Address)
    requires forall q :: q in order ==> q in allocations
    requires p in order && !InI128(deployable * allocations[p])
    ensures PayPools(tokens, usdc, deployable, allocations, order).Err?
  {
    if p != order[|order| - 1] {
      PaymentsMustFit(tokens, usdc, deployable, allocations, order[..|order| - 1], p);
    }
  }

  /** Unless set otherwise the buffer is one part in twenty. */
  lemma DefaultBufferIsFivePercent(total: nat)
    ensures Reserved(total, DEFAULT_BUFFER_BPS) == total / 20
  {
    FloorBounds(total, 20);
    assert IsFloor(total / 20, total * DEFAULT_BUFFER_BPS, 10_000);
    ReservedIsFloor(total, DEFAULT_BUFFER_BPS, total / 20);
  }

  /** A buffer product that does not fit stops the rebalance before any payment. */
  lemma RebalanceTraps(tokens: Tokens, usdc: Address, bufferBps: int, allocations: map<Address, int>, order: seq<Address>)
    requires forall p :: p in order ==> p in allocations
    requires !InI128(Holding(tokens, StrategyAccount, usdc) * bufferBps)
    ensures Rebalanced(tokens, usdc, bufferBps, allocations, order) == Err(Trap)
  {
  }

  /** The order of the pools makes no difference to anyone's holding. */
  lemma RebalanceIgnoresOrder(tokens: Tokens, usdc: Address, bufferBps: int, s: Strategy,
                              order: seq<Address>, other: seq<Address>, o: Account, a: Address)
    requires s.WithinCaps() && Enumerates(order, s.allocations) && Enumerates(other, s.allocations)
    requires 0 <= bufferBps <= BPS_DENOM
    requires InI128(Holding(tokens, StrategyAccount, usdc) * BPS_DENOM)
    ensures Rebalanced(tokens, usdc, bufferBps, s.allocations, order).Ok?
    ensures Rebalanced(tokens, usdc, bufferBps, s.allocations, other).Ok?
    ensures Holding(Rebalanced(tokens, usdc, bufferBps, s.allocations, order).value, o, a)
         == Holding(Rebalanced(tokens, usdc, bufferBps, s.allocations, other).value, o, a)
  {
    var deployable := Deployable(tokens, usdc, bufferBps);
    RebalancePays(tokens, usdc, bufferBps, s, order);
    RebalancePays(tokens, usdc, bufferBps, s, other);
    PaidInAnyOrder(deployable, s.allocations, order);
    PaidInAnyOrder(deployable, s.allocations, other);
    hide Rebalanced, Holding, Paid, Target;
    if a == usdc && o.Wallet? {
      assert o.addr in order <==> o.addr in other;
    }
  }

  ghost function Targets(deployable: int, allocations: map<Address, int>): map<Address, int> {
    map p | p in allocations :: Target(deployable, allocations[p])
  }

  lemma {:induction false} PaidInAnyOrder(deployable: int, allocations: map<Address, int>, order: seq<Address>)
    requires Enumerates(order, allocations)
    ensures Paid(deployable, allocations, order) == Sum(Targets(deployable, allocations))
  {
    SharesSumInAnyOrder(Targets(deployable, allocations), order);
    PaidIsSharesOfTargets(deployable, allocations, order);
  }

  lemma {:induction false} PaidIsSharesOfTargets(deployable: int, allocations: map<Address, int>, order: seq<Address>)
    requires forall p :: p in order ==> p in allocations
    ensures Paid(deployable, allocations, order) == SharesOf(Targets(deployable, allocations), order)
  {
    if 0 < |order| {
      PaidIsSharesOfTargets(deployable, allocations, order[..|order| - 1]);
    }
  }

  // ---------------------------------------------------------------------------
  // The contract
  // ---------------------------------------------------------------------------

  lemma {:induction false} OthersAreTheRest(allocations: map<Address, int>, pool: Address, order: seq<Address>)
    requires forall i, j :: 0 <= i < j < |order| ==> order[i] != order[j]
    requires forall p :: p in order ==> p in allocations
    ensures OthersOf(allocations, pool, order)
         == SharesOf(allocations, order) - if pool in order then allocations[pool] else 0
  {
    if 0 < |order| {
      OthersAreTheRest(allocations, pool, order[..|order| - 1]);
    }
  }

  lemma {:induction false} OthersNeverShrink(allocations: map<Address, int>, pool: Address, order: seq<Address>, n: nat)
    requires SharesAllowed(allocations) && n <= |order|
    ensures 0 <= OthersOf(allocations, pool, order[..n]) <= OthersOf(allocations, pool, order)
    decreases |order|
  {
    if n == |order| {
      assert order[..n] == order;
      if 0 < n {
        OthersNeverShrink(allocations, pool, order[..n - 1], n - 1);
        assert order[..n - 1][..n - 1] == order[..n - 1];
      }
    } else {
      assert order[..|order| - 1][..n] == order[..n];
      OthersNeverShrink(allocations, pool, order[..|order| - 1], n);
    }
  }

  /** Within the caps no sum overflows, so the iteration order decides nothing. */
  lemma WithinCapsSumsFit(s: Strategy, pool: Address, bps: int, order: seq<Address>)
    requires s.WithinCaps() && Enumerates(order, s.allocations) && 0 <= bps <= MAX_ALLOC_BPS
    ensures SumsFit(s.allocations, pool, bps, order)
  {
    SharesSumInAnyOrder(s.allocations, order);
    OthersAreTheRest(s.allocations, pool, order);
    forall n | 0 <= n <= |order|
      ensures 0 <= OthersOf(s.allocations, pool, order[..n]) <= BPS_DENOM
    {
      OthersNeverShrink(s.allocations, pool, order, n);
    }
    assert order[..|order|] == order;
  }

  /** The loop over the stored shares, every addition checked. */
  method CheckedOthers(allocations: map<Address, int>, pool: Address, order: seq<Address>) returns (r: Result<int>)
    requires forall p :: p in order ==> p in allocations
    ensures r == if PrefixesFit(allocations, pool, order) then Ok(OthersOf(allocations, pool, order)) else Err(Trap)
  {
    var othersTotal := 0;
    for i := 0 to |order|
      invariant othersTotal == OthersOf(allocations, pool, order[..i])
      invariant forall n :: 0 <= n <= i ==> InI128(OthersOf(allocations, pool, order[..n]))
    {
      assert order[..i + 1][..i] == order[..i];
      if order[i] != pool {
        if !InI128(othersTotal + allocations[order[i]]) {
          assert !InI128(OthersOf(allocations, pool, order[..i + 1]));
          return Err(Trap);
        }
        othersTotal := othersTotal + allocations[order[i]];
      }
    }
    assert order[..|order|] == order;
    return Ok(othersTotal);
  }

  /** The first failing payment decides the outcome. */
  lemma {:induction false} PayPoolsFails(tokens: Tokens, usdc: Address, deployable: int,
                                         allocations: map<Address, int>, order: seq<Address>, n: nat)
    requires n <= |order| && forall p :: p in order ==> p in allocations
    requires PayPools(tokens, usdc, deployable, allocations, order[..n]).Err?
    ensures PayPools(tokens, usdc, deployable, allocations, order) == PayPools(tokens, usdc, deployable, allocations, order[..n])
    decreases |order|
  {
    if n == |order| {
      assert order[..n] == order;
    } else {
      assert order[..|order| - 1][..n] == order[..n];
      PayPoolsFails(tokens, usdc, deployable, allocations, order[..|order| - 1], n);
    }
  }

  /** The loop over the pools: the transfers made so far, or the first failure. */
  method MakePayments(tokens: Tokens, usdc: Address, deployable: int, allocations: map<Address, int>, order: seq<Address>)
    returns (r: Result<Tokens>)
    requires forall p :: p in order ==> p in allocations
    ensures r == PayPools(tokens, usdc, deployable, allocations, order)
  {
    hide Target, Transfer;
    var moved := tokens;
    for i := 0 to |order|
      invariant PayPools(tokens, usdc, deployable, allocations, order[..i]) == Ok(moved)
    {
      assert order[..i + 1][..i] == order[..i];
      var pool := order[i];
      if !InI128(deployable * allocations[pool]) {
        PayPoolsFails(tokens, usdc, deployable, allocations, order, i + 1);
        return Err(Trap);
      }
      var target := Target(deployable, allocations[pool]);
      if 0 < target {
        var sent := Transfer(moved, usdc, StrategyAccount, Wallet(pool), target);
        if sent.Err? {
          PayPoolsFails(tokens, usdc, deployable, allocations, order, i + 1);
          return Err(sent.error);
        }
        moved := sent.value;
      }
    }
    assert order[..|order|] == order;
    return Ok(moved);
  }

  /** The first of five conditions that fails gives the answer; with all five met, one share changes. */
  lemma SetAllocationAnswers(s: Strategy, caller: Party, pool: Address, bps: int, order: seq<Address>)
    requires Enumerates(order, s.allocations)
    ensures var r := s.SetAllocation(caller, pool, bps, order);
            var others := SharesOf(s.allocations, order) - At(s.allocations, pool);
            var asked := caller == s.admin && pool in s.pools && bps <= 3_500;
            && (r == Err(Unauthorized) <==> caller != s.admin)
            && (r == Err(PoolNotAllowed) <==> caller == s.admin && pool !in s.pools)
            && (r == Err(Trap) <==> asked && !SumsFit(s.allocations, pool, bps, order))
            && (r == Err(AllocationCapExceeded) <==>
                  && caller == s.admin && pool in s.pools
                  && (3_500 < bps || (SumsFit(s.allocations, pool, bps, order) && 10_000 < others + bps)))
            && (r.Ok? <==> asked && SumsFit(s.allocations, pool, bps, order) && others + bps <= 10_000)
            && (r.Ok? ==> r.value == Strategy(s.admin, s.pools, s.allocations[pool := bps]))
  {
    SharesSumInAnyOrder(s.allocations, order);
    SumDrop(s.allocations, pool);
    hide SumsFit, SharesOf, Sum;
  }

  class StrategyVault {
    const usdc: Address
    const admin: Party
    const harvester: Party
    var pools: set<Address>
    var allocations: map<Address, int>
    var bufferBps: int
    var tokens: Tokens

    ghost function View(): Strategy
      reads this
    {
      Strategy(admin, pools, allocations)
    }

    constructor (usdc: Address, admin: Party, harvester: Party, tokens: Tokens)
      ensures View() == Strategy(admin, {}, map[])
      ensures this.usdc == usdc && this.harvester == harvester && this.tokens == tokens && bufferBps == DEFAULT_BUFFER_BPS
    {
      this.usdc, this.admin, this.harvester, this.tokens := usdc, admin, harvester, tokens;
      pools, allocations, bufferBps := {}, map[], DEFAULT_BUFFER_BPS;
    }

    method AllowPool(caller: Party, pool: Address) returns (r: Result<()>)
      modifies `pools
      ensures match old(View()).AllowPool(caller, pool)
              case Ok(s) => r == Ok(()) && View() == s
              case Err(e) => r == Err(e) && View() == old(View())
    {
      if caller != admin {
        return Err(Unauthorized);
      }
      pools := pools + {pool};
      return Ok(());
    }

    method SetBufferBps(caller: Party, bps: int) returns (r: Result<()>)
      modifies `bufferBps
      ensures r.Ok? <==> caller == admin && 0 <= bps <= BPS_DENOM
      ensures bufferBps == if r.Ok? then bps else old(bufferBps)
    {
      if caller != admin {
        return Err(Unauthorized);
      }
      if bps < 0 || BPS_DENOM < bps {
        return Err(OutOfRange);
      }
      bufferBps := bps;
      return Ok(());
    }

    /** `order` is the order in which the host iterates the stored map. */
    method SetAllocation(caller: Party, pool: Address, bps: int, order: seq<Address>) returns (r: Result<()>)
      requires Enumerates(order, allocations)
      modifies `allocations
      ensures match old(View()).SetAllocation(caller, pool, bps, order)
              case Ok(s) => r == Ok(()) && View() == s
              case Err(e) => r == Err(e) && View() == old(View())
    {
      if caller != admin {
        return Err(Unauthorized);
      }
      if pool !in pools {
        return Err(PoolNotAllowed);
      }
      if MAX_ALLOC_BPS < bps {
        return Err(AllocationCapExceeded);
      }
      var others := CheckedOthers(allocations, pool, order);
      if others.Err? || !InI128(others.value + bps) {
        return Err(Trap);
      }
      var othersTotal := others.value;
      OthersAreTheRest(allocations, pool, order);
      SharesSumInAnyOrder(allocations, order);
      SumDrop(allocations, pool);
      if BPS_DENOM < othersTotal + bps {
        return Err(AllocationCapExceeded);
      }
      allocations := allocations[pool := bps];
      return Ok(());
    }

    /** Only the harvester may rebalance; if any payment fails the host undoes all of them. */
    method Rebalance(caller: Party, order: seq<Address>) returns (r: Result<()>)
      requires Enumerates(order, allocations)
      modifies `tokens
      ensures match if caller != harvester then Err(Unauthorized) else Rebalanced(old(tokens), usdc, bufferBps, allocations, order)
              case Ok(after) => r == Ok(()) && tokens == after
              case Err(e) => r == Err(e) && tokens == old(tokens)
    {
      if caller != harvester {
        return Err(Unauthorized);
      }
      var total := Holding(tokens, StrategyAccount, usdc);
      if !InI128(total * bufferBps) {
        return Err(Trap);
      }
      var deployable := total - Reserved(total, bufferBps);
      var moved := MakePayments(tokens, usdc, deployable, allocations, order);
      if moved.Err? {
        return Err(moved.error);
      }
      tokens := moved.value;
      return Ok(());
    }
  }
}
