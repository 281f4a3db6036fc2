/**
 What each governance call answers in any state: exactly when it succeeds, which refusal it
 gives otherwise, and what a success changes.
 */
module GovernanceAnswers {
  import opened Common
  import opened FloorArithmetic
  import opened MapSums
  import opened StrategyVaults
  import opened Governance
  import opened GuardianMultisig
  import opened GovernanceTheorems

  /** A timelock is three days of ledgers at five seconds. */
  lemma TimelockIsThreeDays()
    ensures TIMELOCK_LEDGERS * 5 == 3 * 24 * 60 * 60
  {
  }

  lemma ProposeAnswers(c: Chain, caller: Address, action: ProposalAction)
    ensures var r := Step(c, Propose(caller, action));
            var entitled := Account(caller) == c.gov.strategist;
            var inRange := match action case SetAllocation(_, bps) => 0 <= bps <= 10_000 case _ => true;
            var numbered := |c.gov.proposals| < U32_MAX;
            && (r == Err(Unauthorized) <==> !entitled)
            && (r == Err(OutOfRange) <==> entitled && !inRange)
            && (r == Err(Trap) <==> entitled && inRange && !numbered)
            && (r.Ok? <==> entitled && inRange && numbered)
            && (r.Ok? ==> r.value == c.(gov := c.gov.(proposals := c.gov.proposals + [Proposal(action, c.now, Pending)])))
  {
  }

  lemma VetoAnswers(c: Chain, caller: Address, id: nat)
    ensures var r := Step(c, VetoAlone(caller, id));
            var entitled := Account(caller) == c.gov.guardian;
            && (r == Err(Unauthorized) <==> !entitled)
            && (r == Err(NotFound) <==> entitled && |c.gov.proposals| <= id)
            && (r == Err(NotPending) <==> entitled && id < |c.gov.proposals| && c.gov.proposals[id].status != Pending)
            && (r.Ok? <==> entitled && c.Open(id))
            && (r.Ok? ==> r.value == c.(gov := c.gov.(proposals := c.gov.proposals[id := c.gov.proposals[id].(status := Vetoed)])))
  {
  }

  /** Before the action is tried: the proposal exists, is pending and has waited. */
  lemma ExecuteWaits(c: Chain, id: nat, calleeOk: bool, order: seq<Address>)
    ensures var r := Step(c, Execute(id, calleeOk, order));
            && (r == Err(NotFound) <==> |c.gov.proposals| <= id)
            && (r == Err(NotPending) <==> id < |c.gov.proposals| && c.gov.proposals[id].status != Pending)
            && (r == Err(TimelockRunning) <==> c.Open(id) && c.now < c.gov.proposals[id].proposedAt + 51_840)
            && (r.Err? ==> Apply(c, Execute(id, calleeOk, order)) == c)
  {
    hide SumsFit, Sum;
  }

  /** After the wait, a role update always goes through and is what it says. */
  lemma RoleUpdatesExecute(c: Chain, id: nat, calleeOk: bool, order: seq<Address>)
    requires c.Open(id) && c.gov.proposals[id].proposedAt + 51_840 <= c.now
    requires c.gov.proposals[id].action.UpdateStrategist? || c.gov.proposals[id].action.UpdateGuardian?
    ensures var r := Step(c, Execute(id, calleeOk, order));
            && r.Ok?
            && r.value.vault == c.vault
            && match c.gov.proposals[id].action
               case UpdateStrategist(p) => r.value.gov.strategist == p && r.value.gov.guardian == c.gov.guardian
               case UpdateGuardian(p) => r.value.gov.guardian == p && r.value.gov.strategist == c.gov.strategist
               case _ => true
  {
  }

  /** A tier parameter goes through exactly if the tier vault's setter does; if it panics the proposal stays pending. */
  lemma TierParamsNeedTheCallee(c: Chain, id: nat, calleeOk: bool, order: seq<Address>)
    requires c.Open(id) && c.gov.proposals[id].proposedAt + 51_840 <= c.now
    requires c.gov.proposals[id].action.UpdateTierParam?
    ensures var r := Step(c, Execute(id, calleeOk, order));
            && (r.Ok? <==> calleeOk)
            && (!calleeOk ==> r == Err(CalleeFailed) && Apply(c, Execute(id, calleeOk, order)).Open(id))
            && (r.Ok? ==> r.value.vault == c.vault && r.value.gov.strategist == c.gov.strategist && r.value.gov.guardian == c.gov.guardian)
  {
  }

  /** An allocation goes through exactly if the strategy vault takes it from governance; otherwise nothing changes. */
  lemma AllocationsNeedTheVault(c: Chain, id: nat, calleeOk: bool, order: seq<Address>)
    requires c.Open(id) && c.gov.proposals[id].proposedAt + 51_840 <= c.now
    requires c.gov.proposals[id].action.SetAllocation? && Enumerates(order, c.vault.allocations)
    ensures var r := Step(c, Execute(id, calleeOk, order));
            var pool, bps := c.gov.proposals[id].action.pool, c.gov.proposals[id].action.bps;
            var others := SharesOf(c.vault.allocations, order) - At(c.vault.allocations, pool);
            var fits := SumsFit(c.vault.allocations, pool, bps, order);
            var asked := c.vault.admin == GovernanceContract && pool in c.vault.pools && bps <= 3_500;
            && (r.Ok? <==> asked && fits && others + bps <= 10_000)
            && (r == Err(Unauthorized) <==> c.vault.admin != GovernanceContract)
            && (r == Err(PoolNotAllowed) <==> c.vault.admin == GovernanceContract && pool !in c.vault.pools)
            && (r == Err(Trap) <==> asked && !fits)
            && (r.Ok? ==> r.value.vault.allocations == c.vault.allocations[pool := bps])
            && (r.Err? ==> Apply(c, Execute(id, calleeOk, order)).Open(id))
  {
    var action := c.gov.proposals[id].action;
    SetAllocationAnswers(c.vault, GovernanceContract, action.pool, action.bps, order);
    hide Strategy.SetAllocation, SumsFit, SharesOf;
  }

  /** A success marks this proposal executed, and touches neither another proposal nor the multisig. */
  lemma ExecuteMarksOne(c: Chain, id: nat, calleeOk: bool, order: seq<Address>)
    requires Step(c, Execute(id, calleeOk, order)).Ok?
    ensures var c' := Step(c, Execute(id, calleeOk, order)).value;
            && c.Open(id)
            && c'.gov.proposals == c.gov.proposals[id := c.gov.proposals[id].(status := Executed)]
            && c'.multisig == c.multisig && c'.now == c.now
  {
    hide Strategy.SetAllocation;
  }

  /** A confirmation counts once per owner; the one that completes the round needs the veto to succeed. */
  lemma ConfirmVetoAnswers(c: Chain, owner: Address, round: Round, calleeOk: bool)
    ensures var r := Step(c, ConfirmVeto(owner, round, calleeOk));
            var list := c.multisig.Confirmed(round);
            var entitled, first := owner in c.multisig.owners, owner !in list;
            var completes := c.multisig.threshold <= |list| + 1;
            var vetoed := match round.target
                          case ThisGovernance => c.gov.guardian == MultisigContract && c.Open(round.id)
                          case OtherContract(_) => calleeOk;
            && (r == Err(AlreadyConfirmed) <==> entitled && !first)
            && (!entitled ==> r == Err(Unauthorized))
            && (r.Ok? <==> entitled && first && (completes ==> vetoed))
            && (r.Ok? ==> r.value.multisig.Confirmed(round) == if completes then [] else list + [owner])
            && (r.Ok? && completes && round.target == ThisGovernance ==> r.value.gov.proposals[round.id].status == Vetoed)
            && (r.Ok? && !completes ==> r.value.gov == c.gov)
  {
  }

  /** Other rounds keep their confirmations, whoever confirms what. */
  lemma RoundsAreIndependent(c: Chain, a: Action, other: Round)
    requires Step(c, a).Ok? && !(a.ConfirmVeto? && a.round == other)
    ensures Step(c, a).value.multisig.Confirmed(other) == c.multisig.Confirmed(other)
    ensures other in Step(c, a).value.multisig.confirmations <==> other in c.multisig.confirmations
  {
  }

  // ---------------------------------------------------------------------------
  // Every proposal goes back to a call
  // ---------------------------------------------------------------------------

  /** Call number n of the run is the strategist's of the moment, and makes proposal `id`. */
  ghost predicate ProposesAt(start: Chain, actions: seq<Action>, n: nat, id: nat, p: Proposal)
    requires n < |actions|
  {
    var c, a := Run(start, actions[..n]), actions[n];
    && a.Propose? && a.action == p.action
    && Account(a.caller) == c.gov.strategist
    && |c.gov.proposals| == id && c.now == p.proposedAt
  }

  ghost predicate WasProposed(start: Chain, actions: seq<Action>, id: nat, p: Proposal) {
    exists n: nat :: n < |actions| && ProposesAt(start, actions, n, id, p)
  }

  lemma ProposedStays(start: Chain, actions: seq<Action>, a: Action, id: nat, p: Proposal, q: Proposal)
    requires WasProposed(start, actions, id, p) && q.action == p.action && q.proposedAt == p.proposedAt
    ensures WasProposed(start, actions + [a], id, q)
  {
    hide Run;
    var n: nat :| n < |actions| && ProposesAt(start, actions, n, id, p);
    assert (actions + [a])[..n] == actions[..n];
    assert ProposesAt(start, actions + [a], n, id, q);
  }

  lemma ProposedLast(start: Chain, actions: seq<Action>, a: Action, p: Proposal)
    requires a.Propose? && a.action == p.action && Account(a.caller) == Run(start, actions).gov.strategist
    requires Run(start, actions).now == p.proposedAt
    ensures WasProposed(start, actions + [a], |Run(start, actions).gov.proposals|, p)
  {
    hide Run;
    assert (actions + [a])[..|actions|] == actions;
    assert ProposesAt(start, actions + [a], |actions|, |Run(start, actions).gov.proposals|, p);
  }

  /** Only proposing adds a proposal, at the end and with the current ledger. */
  lemma NewProposalsAreProposed(c: Chain, a: Action, id: nat)
    requires Step(c, a).Ok? && |c.gov.proposals| <= id < |Step(c, a).value.gov.proposals|
    ensures a.Propose? && Account(a.caller) == c.gov.strategist && id == |c.gov.proposals|
    ensures Step(c, a).value.gov.proposals[id] == Proposal(a.action, c.now, Pending)
  {
    hide Strategy.SetAllocation;
  }

  /** In every run, every proposal was made by the strategist of its moment, at the ledger it names, as it stands. */
  lemma {:induction false} ProposalsComeFromCalls(start: Chain, actions: seq<Action>, id: nat)
    requires Genesis(start) && id < |Run(start, actions).gov.proposals|
    ensures WasProposed(start, actions, id, Run(start, actions).gov.proposals[id])
  {
    if 0 < |actions| {
      var before, last := actions[..|actions| - 1], actions[|actions| - 1];
      var c := Run(start, before);
      assert actions == before + [last];
      if id < |c.gov.proposals| {
        ProposalsComeFromCalls(start, before, id);
        OldProposalsStand(c, last, id);
        ProposedStays(start, before, last, id, c.gov.proposals[id], Run(start, actions).gov.proposals[id]);
      } else {
        NewProposalsAreProposed(c, last, id);
        ProposedLast(start, before, last, Run(start, actions).gov.proposals[id]);
      }
    }
  }

  lemma OldProposalsStand(c: Chain, a: Action, id: nat)
    requires id < |c.gov.proposals|
    ensures var c' := Apply(c, a);
            && id < |c'.gov.proposals|
            && c'.gov.proposals[id].action == c.gov.proposals[id].action
            && c'.gov.proposals[id].proposedAt == c.gov.proposals[id].proposedAt
  {
    if Step(c, a).Ok? {
      StepGrowsProposals(c, a);
    }
  }

  /** So an executed action was proposed by a call of the run, at least three days of ledgers before. */
  lemma {:induction false} ExecutedLongAfterItsCall(start: Chain, actions: seq<Action>, i: nat)
    requires Genesis(start) && i < |Run(start, actions).executions|
    ensures var e := Run(start, actions).executions[i];
            exists p: Proposal ::
              p.action == e.action && p.proposedAt + 51_840 <= e.ledger && WasProposed(start, actions, e.id, p)
  {
    ExecutionsWaitAndHappenOnce(start, actions, i);
    hide Run, WasProposed;
    var c := Run(start, actions);
    ProposalsComeFromCalls(start, actions, c.executions[i].id);
  }
}
