/** What the off-chain reconciliation says about the events of any run of the vaults. */
module ReconcileTheorems {
  import opened Common
  import opened MapSums
  import opened TierVaults
  import opened TokenLedger
  import opened VaultEvents
  import opened VaultRouter
  import opened VaultInvariants
  import opened VaultTheorems
  import opened Reconcile

  /**
   The complete log of a run folds to exactly the tokens each vault holds, but for those that
   came by other ways than the router, and no balance is reported negative.
   */
  lemma {:induction false} LogAgreesWithHoldings(w: World, actions: seq<Action>, t: Tier, asset: Address)
    requires Genesis(w) && forall a :: a in actions ==> NonNegative(a)
    ensures var r := Run(w, actions);
            && Flow(EventsOf(r.history), t, asset) == r.VaultHolding(t, asset) - r.Arrived(t, asset)
            && NegativeReports(EventsOf(r.history), KeysOf(EventsOf(r.history))) == []
  {
    ReachableInvariant(w, actions);
    var r := Run(w, actions);
    forall u, b
      ensures 0 <= Flow(EventsOf(r.history), u, b)
    {
      FeesAreCharges(w, actions, u, b);
      SumCovers(AssetBalances(r.tiers.At(u).positions, b));
      assert Flow(EventsOf(r.history), u, b) == r.Routed(u, b) == Owed(r.tiers.At(u), b) + Fees(r.history, u, b);
    }
    NoReportsExactly(EventsOf(r.history));
  }

  /** What the aggregate check should say about one tier after a run: the fees it charged, if any call paid one. */
  ghost function FeeReport(w: World, actions: seq<Action>, t: Tier): seq<Mismatch> {
    var total := Run(w, actions).tiers.At(t).TotalBalance();
    if SomeCallPays(w, actions, t) then [AggregateBalance(t, total, total + TierCharged(w, actions, t))] else []
  }

  lemma {:induction false} MismatchOfOneTier(w: World, actions: seq<Action>, t: Tier)
    requires Genesis(w) && forall a :: a in actions ==> NonNegative(a)
    ensures var r := Run(w, actions);
            AggregateReports(EventsOf(r.history), [VaultTotals(t, r.tiers.At(t).TotalBalance())]) == FeeReport(w, actions, t)
  {
    ReachableInvariant(w, actions);
    FeesAreCharges(w, actions, t, "");
    var r := Run(w, actions);
    assert TierFlow(EventsOf(r.history), t) == r.tiers.At(t).TotalBalance() + TierCharged(w, actions, t);
    hide *;
    AggregateReportOf(EventsOf(r.history), t, r.tiers.At(t).TotalBalance());
    FeeReportByCharge(w, actions, t);
  }

  lemma {:induction false} FeeReportByCharge(w: World, actions: seq<Action>, t: Tier)
    requires Genesis(w) && forall a :: a in actions ==> NonNegative(a)
    ensures var total, fees := Run(w, actions).tiers.At(t).TotalBalance(), TierCharged(w, actions, t);
            FeeReport(w, actions, t) == if fees == 0 then [] else [AggregateBalance(t, total, total + fees)]
  {
    hide Run, SomeCallPays, TierCharged, Genesis, NonNegative, Vault.TotalBalance, Tiers.At;
    ChargedExactly(w, actions, t);
    if SomeCallPays(w, actions, t) {
      assert TierCharged(w, actions, t) != 0;
    }
  }

  ghost function TotalsOf(r: World, tiers: seq<Tier>): (totals: seq<VaultTotals>)
    ensures |totals| == |tiers|
  {
    seq(|tiers|, i requires 0 <= i < |tiers| => VaultTotals(tiers[i], r.tiers.At(tiers[i]).TotalBalance()))
  }

  ghost function FeeReports(w: World, actions: seq<Action>, tiers: seq<Tier>): seq<Mismatch> {
    if |tiers| == 0 then [] else
      FeeReports(w, actions, tiers[..|tiers| - 1]) + FeeReport(w, actions, tiers[|tiers| - 1])
  }

  lemma AggregateReportsLast(events: seq<VaultEvent>, totals: seq<VaultTotals>)
    requires 0 < |totals|
    ensures var n := |totals| - 1;
            AggregateReports(events, totals) == AggregateReports(events, totals[..n]) + AggregateReports(events, [totals[n]])
  {
    AggregateReportOf(events, totals[|totals| - 1].tier, totals[|totals| - 1].totalBalance);
  }

  /**
   The tier totals on chain leave out the fees that the vaults keep, while the events do not.
   Whichever vaults are checked, the aggregate check reports, in that order, exactly those of
   which some early exit paid a fee, each off by the sum of its fees.
   */
  lemma {:induction false} AggregateMismatchIsTheFees(w: World, actions: seq<Action>, tiers: seq<Tier>)
    requires Genesis(w) && forall a :: a in actions ==> NonNegative(a)
    ensures AggregateReports(EventsOf(Run(w, actions).history), TotalsOf(Run(w, actions), tiers)) == FeeReports(w, actions, tiers)
  {
    if 0 < |tiers| {
      var n := |tiers| - 1;
      AggregateMismatchIsTheFees(w, actions, tiers[..n]);
      MismatchOfOneTier(w, actions, tiers[n]);
      hide Run, FeeReport, AggregateReports, EventsOf;
      var totals := TotalsOf(Run(w, actions), tiers);
      assert totals[..n] == TotalsOf(Run(w, actions), tiers[..n]);
      AggregateReportsLast(EventsOf(Run(w, actions).history), totals);
    }
  }

  /** For the script's own call, with all four vaults: the reports of the locked tiers one after another, and never Flex. */
  lemma FourVaultsMismatch(w: World, actions: seq<Action>)
    requires Genesis(w) && forall a :: a in actions ==> NonNegative(a)
    ensures AggregateReports(EventsOf(Run(w, actions).history), TotalsOf(Run(w, actions), [Flex, L3, L6, L12]))
         == FeeReport(w, actions, L3) + FeeReport(w, actions, L6) + FeeReport(w, actions, L12)
  {
    hide *;
    AggregateMismatchIsTheFees(w, actions, [Flex, L3, L6, L12]);
    FlexReportsNothing(w, actions);
    FourReports(w, actions);
  }

  lemma FlexReportsNothing(w: World, actions: seq<Action>)
    requires Genesis(w) && forall a :: a in actions ==> NonNegative(a)
    ensures FeeReport(w, actions, Flex) == []
  {
    hide Run, AggregateReports, FeeReport;
    FlexNeverMismatches(w, actions);
    MismatchOfOneTier(w, actions, Flex);
  }

  lemma FourReports(w: World, actions: seq<Action>)
    ensures FeeReports(w, actions, [Flex, L3, L6, L12])
         == FeeReport(w, actions, Flex) + FeeReport(w, actions, L3) + FeeReport(w, actions, L6) + FeeReport(w, actions, L12)
  {
    hide FeeReport;
    var all := [Flex, L3, L6, L12];
    assert all[..3] == [Flex, L3, L6] && all[..3][..2] == [Flex, L3] && all[..3][..2][..1] == [Flex];
    assert FeeReports(w, actions, [Flex]) == FeeReport(w, actions, Flex) by {
      assert [Flex][..0] == [];
    }
    assert FeeReports(w, actions, [Flex, L3]) == FeeReports(w, actions, [Flex]) + FeeReport(w, actions, L3) by {
      assert [Flex, L3][..1] == [Flex];
    }
    assert FeeReports(w, actions, [Flex, L3, L6]) == FeeReports(w, actions, [Flex, L3]) + FeeReport(w, actions, L6) by {
      assert [Flex, L3, L6][..2] == [Flex, L3];
    }
  }

  lemma AggregateReportOf(events: seq<VaultEvent>, t: Tier, total: int)
    ensures AggregateReports(events, [VaultTotals(t, total)])
         == if TierFlow(events, t) == total then [] else [AggregateBalance(t, total, TierFlow(events, t))]
  {
    assert AggregateReports(events, []) == [];
    assert [VaultTotals(t, total)][..0] == [];
  }

  /** Flex charges no fee, so its totals always reconcile. */
  lemma {:induction false} FlexNeverMismatches(w: World, actions: seq<Action>)
    requires Genesis(w) && forall a :: a in actions ==> NonNegative(a)
    ensures var r := Run(w, actions);
            && TierCharged(w, actions, Flex) == 0
            && AggregateReports(EventsOf(r.history), [VaultTotals(Flex, r.tiers.At(Flex).TotalBalance())]) == []
  {
    ChargedExactly(w, actions, Flex);
    hide Run;
    MismatchOfOneTier(w, actions, Flex);
  }

  /** Replaying the log in another order, or merging it from several sources, changes no sum. */
  lemma {:induction false} LogOrderIsIrrelevant(w: World, actions: seq<Action>, log: seq<VaultEvent>, t: Tier, asset: Address)
    requires Genesis(w) && forall a :: a in actions ==> NonNegative(a)
    requires multiset(log) == multiset(EventsOf(Run(w, actions).history))
    ensures Flow(log, t, asset) == Run(w, actions).VaultHolding(t, asset) - Run(w, actions).Arrived(t, asset)
  {
    FlowIgnoresOrder(log, EventsOf(Run(w, actions).history), t, asset);
    LogAgreesWithHoldings(w, actions, t, asset);
  }
}
