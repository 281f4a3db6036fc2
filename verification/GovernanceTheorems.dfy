/** What every run of governance, multisig and strategy vault keeps. */
module GovernanceTheorems {
  import opened Common
  import opened MapSums
  import opened StrategyVaults
  import opened Governance
  import opened GuardianMultisig

  /** An executed proposal, as history remembers it. */
  datatype Execution = Execution(id: nat, action: ProposalAction, ledger: nat)

  datatype Chain = Chain(gov: Ledger, vault: Strategy, multisig: Multisig, now: nat, executions: seq<Execution>) {
    predicate Open(id: nat) {
      id < |gov.proposals| && gov.proposals[id].status == Pending
    }
  }

  /** Calls signed by accounts, and the passing of ledgers. */
  datatype Action =
    | Propose(caller: Address, action: ProposalAction)
    | VetoAlone(caller: Address, id: nat)
    | ConfirmVeto(owner: Address, round: Round, calleeOk: bool)
    | Execute(id: nat, calleeOk: bool, order: seq<Address>)
    | AllowPool(caller: Address, pool: Address)
    | AllocateDirectly(caller: Address, pool: Address, bps: int, order: seq<Address>)
    | AdvanceLedger(ledgers: nat)

  ghost function Step(c: Chain, a: Action): Result<Chain> {
    match a
    case Propose(caller, action) =>
      var g :- c.gov.Propose(Account(caller), action, c.now);
      Ok(c.(gov := g))
    case VetoAlone(caller, id) =>
      var g :- c.gov.Veto(Account(caller), id);
      Ok(c.(gov := g))
    case ConfirmVeto(owner, round, calleeOk) =>
      var mg :- c.multisig.ConfirmVeto(c.gov, owner, round, calleeOk);
      Ok(c.(multisig := mg.0, gov := mg.1))
    case Execute(id, calleeOk, order) =>
      var gs :- ExecuteStep(c.gov, c.vault, id, c.now, calleeOk, order);
      Ok(c.(gov := gs.0, vault := gs.1,
            executions := c.executions + [Execution(id, c.gov.proposals[id].action, c.now)]))
    case AllowPool(caller, pool) =>
      var s :- c.vault.AllowPool(Account(caller), pool);
      Ok(c.(vault := s))
    case AllocateDirectly(caller, pool, bps, order) =>
      var s :- c.vault.SetAllocation(Account(caller), pool, bps, order);
      Ok(c.(vault := s))
    case AdvanceLedger(ledgers) => Ok(c.(now := c.now + ledgers))
  }

  ghost function Apply(c: Chain, a: Action): Chain {
    match Step(c, a)
    case Ok(c') => c'
    case Err(_) => c
  }

  ghost function Run(c: Chain, actions: seq<Action>): Chain {
    if |actions| == 0 then c else Apply(Run(c, actions[..|actions| - 1]), actions[|actions| - 1])
  }

  /** Freshly initialised contracts. */
  ghost predicate Genesis(c: Chain) {
    && c.gov.proposals == [] && c.executions == []
    && c.multisig.Initialised() && c.multisig.confirmations == map[]
    && c.vault.WithinCaps()
  }

  // ---------------------------------------------------------------------------
  // Replaying what was executed
  // ---------------------------------------------------------------------------

  datatype Powers = Powers(strategist: Party, guardian: Party, allocations: map<Address, int>) {
    function After(action: ProposalAction): Powers {
      match action
      case SetAllocation(pool, bps) => this.(allocations := allocations[pool := bps])
      case UpdateStrategist(p) => this.(strategist := p)
      case UpdateGuardian(p) => this.(guardian := p)
      case UpdateTierParam(_, _, _) => this
    }
  }

  function PowersOf(c: Chain): Powers {
    Powers(c.gov.strategist, c.gov.guardian, c.vault.allocations)
  }

  /** The executed actions applied to the initial powers, in the order of execution. */
  function Replay(start: Powers, executions: seq<Execution>): Powers {
    if |executions| == 0 then start else
      Replay(start, executions[..|executions| - 1]).After(executions[|executions| - 1].action)
  }

  lemma ReplayAppend(start: Powers, executions: seq<Execution>, e: Execution)
    ensures Replay(start, executions + [e]) == Replay(start, executions).After(e.action)
  {
    assert (executions + [e])[..|executions|] == executions;
  }

  // ---------------------------------------------------------------------------
  // Invariants
  // ---------------------------------------------------------------------------

  /** Each execution is of a distinct proposal, of its own action, at least a timelock after it was made. */
  ghost predicate ExecutionsSound(c: Chain) {
    && (forall i, j :: 0 <= i < j < |c.executions| ==> c.executions[i].id != c.executions[j].id)
    && (forall i :: 0 <= i < |c.executions| ==> ExecutionSound(c, c.executions[i]))
  }

  ghost predicate ExecutionSound(c: Chain, e: Execution) {
    && e.id < |c.gov.proposals|
    && c.gov.proposals[e.id].action == e.action
    && c.gov.proposals[e.id].status == Executed
    && c.gov.proposals[e.id].proposedAt + TIMELOCK_LEDGERS <= e.ledger <= c.now
  }

  /** And each proposal marked executed has its execution. */
  ghost predicate ExecutionsComplete(c: Chain) {
    forall id: nat :: id < |c.gov.proposals| && c.gov.proposals[id].status == Executed ==>
      exists i :: 0 <= i < |c.executions| && c.executions[i].id == id
  }

  ghost predicate ProposalsSound(c: Chain) {
    forall id: nat :: id < |c.gov.proposals| ==> Proposable(c.gov.proposals[id].action) && c.gov.proposals[id].proposedAt <= c.now
  }

  /** Roles always follow the executed proposals; allocations do when only governance can set them. */
  ghost predicate Traceable(start: Powers, c: Chain) {
    && c.gov.strategist == Replay(start, c.executions).strategist
    && c.gov.guardian == Replay(start, c.executions).guardian
    && (c.vault.admin == GovernanceContract ==> c.vault.allocations == Replay(start, c.executions).allocations)
  }

  ghost predicate AllocationsCapped(c: Chain) {
    c.vault.admin == GovernanceContract ==> c.vault.WithinCaps()
  }

  ghost predicate Invariant(start: Chain, c: Chain) {
    && ExecutionsSound(c)
    && ExecutionsComplete(c)
    && ProposalsSound(c)
    && Traceable(PowersOf(start), c)
    && AllocationsCapped(c)
    && c.multisig.Initialised()
    && c.multisig.RoundsOpen()
    && c.vault.admin == start.vault.admin
    && c.multisig.owners == start.multisig.owners && c.multisig.threshold == start.multisig.threshold
  }

  // ---------------------------------------------------------------------------
  // What a step does to the proposals
  // ---------------------------------------------------------------------------

  /** Nothing happens to `g`'s proposals but additions at the end and one change of status. */
  ghost predicate ProposalsGrow(g: Ledger, g': Ledger) {
    && |g.proposals| <= |g'.proposals|
    && forall id: nat :: id < |g.proposals| ==>
         && g'.proposals[id].action == g.proposals[id].action
         && g'.proposals[id].proposedAt == g.proposals[id].proposedAt
         && (g.proposals[id].status != Pending ==> g'.proposals[id].status == g.proposals[id].status)
  }

  lemma StepGrowsProposals(c: Chain, a: Action)
    requires Step(c, a).Ok?
    ensures ProposalsGrow(c.gov, Step(c, a).value.gov)
  {
  }

  lemma OthersKeepExecutions(c: Chain, a: Action)
    requires Step(c, a).Ok? && !a.Execute?
    requires ExecutionsSound(c) && ExecutionsComplete(c) && ProposalsSound(c)
    ensures var c' := Step(c, a).value;
            ExecutionsSound(c') && ExecutionsComplete(c') && ProposalsSound(c')
  {
    var c' := Step(c, a).value;
    StepGrowsProposals(c, a);
    assert c'.executions == c.executions && c.now <= c'.now;
    forall i | 0 <= i < |c'.executions|
      ensures ExecutionSound(c', c'.executions[i])
    {
      assert ExecutionSound(c, c.executions[i]);
    }
    NewlyExecutedOnlyByExecute(c, a);
  }

  lemma NewlyExecutedOnlyByExecute(c: Chain, a: Action)
    requires Step(c, a).Ok? && !a.Execute?
    ensures var c' := Step(c, a).value;
            forall id: nat :: id < |c'.gov.proposals| && c'.gov.proposals[id].status == Executed ==>
              id < |c.gov.proposals| && c.gov.proposals[id].status == Executed
  {
  }

  lemma ExecuteAddsExecution(c: Chain, id: nat, calleeOk: bool, order: seq<Address>)
    requires Step(c, Execute(id, calleeOk, order)).Ok?
    ensures var c' := Step(c, Execute(id, calleeOk, order)).value;
            && id < |c.gov.proposals| == |c'.gov.proposals| && c.gov.proposals[id].status == Pending
            && c.gov.proposals[id].proposedAt + TIMELOCK_LEDGERS <= c.now == c'.now
            && c'.gov.proposals == c.gov.proposals[id := c.gov.proposals[id].(status := Executed)]
            && c'.executions == c.executions + [Execution(id, c.gov.proposals[id].action, c.now)]
  {
    hide Strategy.SetAllocation;
  }

  lemma ExecuteKeepsExecutions(c: Chain, id: nat, calleeOk: bool, order: seq<Address>)
    requires Step(c, Execute(id, calleeOk, order)).Ok?
    requires ExecutionsSound(c) && ExecutionsComplete(c) && ProposalsSound(c)
    ensures var c' := Step(c, Execute(id, calleeOk, order)).value;
            ExecutionsSound(c') && ExecutionsComplete(c') && ProposalsSound(c')
  {
    var c' := Step(c, Execute(id, calleeOk, order)).value;
    ExecuteAddsExecution(c, id, calleeOk, order);
    hide Step;
    var n := |c.executions|;
    forall i | 0 <= i < |c'.executions|
      ensures ExecutionSound(c', c'.executions[i])
      ensures i < n ==> c'.executions[i].id != id
    {
      if i < n {
        assert ExecutionSound(c, c.executions[i]);
      }
    }
    forall p: nat | p < |c'.gov.proposals| && c'.gov.proposals[p].status == Executed
      ensures exists i :: 0 <= i < |c'.executions| && c'.executions[i].id == p
    {
      if p == id {
        assert c'.executions[n].id == p;
      } else {
        var i :| 0 <= i < n && c.executions[i].id == p;
        assert c'.executions[i].id == p;
      }
    }
  }

  lemma StepTraceable(start: Powers, c: Chain, a: Action)
    requires Step(c, a).Ok? && Traceable(start, c)
    ensures Traceable(start, Step(c, a).value) && Step(c, a).value.vault.admin == c.vault.admin
  {
    hide Replay;
    if a.Execute? {
      ExecuteTraceable(start, c, a.id, a.calleeOk, a.order);
    } else {
      OthersKeepPowers(c, a);
    }
    hide Step;
  }

  lemma OthersKeepPowers(c: Chain, a: Action)
    requires Step(c, a).Ok? && !a.Execute?
    ensures var c' := Step(c, a).value;
            && c'.executions == c.executions
            && c'.gov.strategist == c.gov.strategist && c'.gov.guardian == c.gov.guardian
            && c'.vault.admin == c.vault.admin
            && (c.vault.admin == GovernanceContract ==> c'.vault.allocations == c.vault.allocations)
  {
  }

  lemma ExecuteTraceable(start: Powers, c: Chain, id: nat, calleeOk: bool, order: seq<Address>)
    requires Step(c, Execute(id, calleeOk, order)).Ok? && Traceable(start, c)
    ensures Traceable(start, Step(c, Execute(id, calleeOk, order)).value)
    ensures Step(c, Execute(id, calleeOk, order)).value.vault.admin == c.vault.admin
  {
    ExecuteChangesPowers(c, id, calleeOk, order);
    hide Step, Replay;
    var action := c.gov.proposals[id].action;
    ReplayAppend(start, c.executions, Execution(id, action, c.now));
    var was := Replay(start, c.executions);
    AfterIsFieldwise(PowersOf(c), was, action);
  }

  /** An execution changes the powers as its action says. */
  lemma ExecuteChangesPowers(c: Chain, id: nat, calleeOk: bool, order: seq<Address>)
    requires Step(c, Execute(id, calleeOk, order)).Ok?
    ensures var c' := Step(c, Execute(id, calleeOk, order)).value;
            && id < |c.gov.proposals|
            && PowersOf(c') == PowersOf(c).After(c.gov.proposals[id].action)
            && c'.executions == c.executions + [Execution(id, c.gov.proposals[id].action, c.now)]
            && c'.vault.admin == c.vault.admin
  {
    hide Sum, SumsFit;
  }

  /** Each power after an action depends only on the same power before it. */
  lemma AfterIsFieldwise(p: Powers, q: Powers, action: ProposalAction)
    ensures p.strategist == q.strategist ==> p.After(action).strategist == q.After(action).strategist
    ensures p.guardian == q.guardian ==> p.After(action).guardian == q.After(action).guardian
    ensures p.allocations == q.allocations ==> p.After(action).allocations == q.After(action).allocations
  {
  }

  lemma StepCapped(c: Chain, a: Action)
    requires Step(c, a).Ok? && AllocationsCapped(c) && ProposalsSound(c)
    ensures AllocationsCapped(Step(c, a).value)
  {
    if a.Execute? {
      var action := c.gov.proposals[a.id].action;
      assert Proposable(action);
      if action.SetAllocation? && c.vault.admin == GovernanceContract {
        SetAllocationKeepsCaps(c.vault, GovernanceContract, action.pool, action.bps, a.order);
      }
    }
  }

  lemma StepRounds(c: Chain, a: Action)
    requires Step(c, a).Ok? && c.multisig.Initialised() && c.multisig.RoundsOpen()
    ensures var m := Step(c, a).value.multisig;
            m.Initialised() && m.RoundsOpen() && m.owners == c.multisig.owners && m.threshold == c.multisig.threshold
  {
  }

  lemma {:induction false} InvariantStep(start: Chain, c: Chain, a: Action)
    requires Invariant(start, c) && Step(c, a).Ok?
    ensures Invariant(start, Step(c, a).value)
  {
    if a.Execute? {
      ExecuteKeepsExecutions(c, a.id, a.calleeOk, a.order);
    } else {
      OthersKeepExecutions(c, a);
    }
    StepTraceable(PowersOf(start), c, a);
    StepCapped(c, a);
    StepRounds(c, a);
    hide Step, ExecutionsSound, ExecutionsComplete, ProposalsSound, Traceable, AllocationsCapped, Multisig.RoundsOpen;
  }

  lemma {:induction false} ReachableInvariant(start: Chain, actions: seq<Action>)
    requires Genesis(start)
    ensures Invariant(start, Run(start, actions))
  {
    if 0 < |actions| {
      var before, last := actions[..|actions| - 1], actions[|actions| - 1];
      ReachableInvariant(start, before);
      if Step(Run(start, before), last).Ok? {
        InvariantStep(start, Run(start, before), last);
      }
    }
  }

  // ---------------------------------------------------------------------------
  // Main results
  // ---------------------------------------------------------------------------

  /** The strategist and the guardian, and the allocations that governance administers, are what was executed. */
  lemma {:induction false} PowersComeFromExecutedProposals(start: Chain, actions: seq<Action>)
    requires Genesis(start)
    ensures Traceable(PowersOf(start), Run(start, actions))
  {
    ReachableInvariant(start, actions);
  }

  /** Every execution waited out the timelock and happened once, to a proposal that was not vetoed. */
  lemma ExecutionsWaitAndHappenOnce(start: Chain, actions: seq<Action>, i: nat)
    requires Genesis(start) && i < |Run(start, actions).executions|
    ensures var c := Run(start, actions);
            var e := c.executions[i];
            && e.id < |c.gov.proposals|
            && c.gov.proposals[e.id].action == e.action
            && c.gov.proposals[e.id].status == Executed
            && c.gov.proposals[e.id].proposedAt + TIMELOCK_LEDGERS <= e.ledger
            && forall j :: 0 <= j < |c.executions| && c.executions[j].id == e.id ==> j == i
  {
    ReachableInvariant(start, actions);
    assert ExecutionSound(Run(start, actions), Run(start, actions).executions[i]);
  }

  /** Once executed or vetoed, a proposal stays so whatever happens next. */
  lemma {:induction false} DecisionsAreFinal(c: Chain, actions: seq<Action>, id: nat)
    requires id < |c.gov.proposals| && c.gov.proposals[id].status != Pending
    ensures var c' := Run(c, actions);
            id < |c'.gov.proposals| && c'.gov.proposals[id] == c.gov.proposals[id]
  {
    if 0 < |actions| {
      var before, last := actions[..|actions| - 1], actions[|actions| - 1];
      DecisionsAreFinal(c, before, id);
      if Step(Run(c, before), last).Ok? {
        StepGrowsProposals(Run(c, before), last);
      }
    }
  }

  /** Under governance's administration the stored allocations stay within the caps, in whatever order proposals execute. */
  lemma {:induction false} AllocationsStayWithinCaps(start: Chain, actions: seq<Action>)
    requires Genesis(start) && start.vault.admin == GovernanceContract
    ensures Run(start, actions).vault.WithinCaps()
  {
    ReachableInvariant(start, actions);
  }

  /**
   Governance has no action that allows a pool. With governance as the strategy's admin, which
   is what its initialiser asks for, the allowed pools never change; starting from none, no
   allocation is ever made.
   */
  lemma {:induction false} GovernanceCannotAllowPools(start: Chain, actions: seq<Action>)
    requires start.vault.admin == GovernanceContract
    ensures Run(start, actions).vault.pools == start.vault.pools
    ensures Run(start, actions).vault.admin == GovernanceContract
    ensures start.vault.pools == {} ==> Run(start, actions).vault.allocations == start.vault.allocations
  {
    ContractsCannotAllowPools(start, actions);
  }

  lemma {:induction false} ContractsCannotAllowPools(start: Chain, actions: seq<Action>)
    requires !start.vault.admin.Account?
    ensures Run(start, actions).vault.pools == start.vault.pools
    ensures Run(start, actions).vault.admin == start.vault.admin
    ensures start.vault.pools == {} ==> Run(start, actions).vault.allocations == start.vault.allocations
  {
    if 0 < |actions| {
      ContractsCannotAllowPools(start, actions[..|actions| - 1]);
    }
  }

  /** The run leaves the pool allowed. */
  ghost predicate Allows(start: Chain, actions: seq<Action>, pool: Address) {
    pool in Run(start, actions).vault.pools
  }

  /** Only an account can allow pools: it can allow any, governance and the multisig none. */
  lemma {:induction false} PoolsGrowExactly(start: Chain, pool: Address)
    requires pool !in start.vault.pools
    ensures start.vault.admin.Account? <==> exists actions :: Allows(start, actions, pool)
  {
    if start.vault.admin.Account? {
      var a := AllowPool(start.vault.admin.addr, pool);
      assert [a][..0] == [];
      assert Run(start, [a]) == Apply(start, a) && Step(start, a).Ok?;
      assert Allows(start, [a], pool);
    } else {
      forall actions
        ensures !Allows(start, actions, pool)
      {
        ContractsCannotAllowPools(start, actions);
      }
    }
  }

  function Members(s: seq<Address>): set<Address> {
    set o | o in s
  }

  lemma {:induction false} DistinctCount(s: seq<Address>)
    requires Distinct(s)
    ensures |Members(s)| == |s|
  {
    if 0 < |s| {
      var before, last := s[..|s| - 1], s[|s| - 1];
      DistinctCount(before);
      assert Members(s) == Members(before) + {last};
    }
  }

  lemma VetoingStep(start: Chain, c: Chain, a: Action, id: nat)
    requires Invariant(start, c) && c.gov.guardian == MultisigContract
    requires Step(c, a).Ok? && c.Open(id) && Step(c, a).value.gov.proposals[id].status == Vetoed
    ensures a.ConfirmVeto? && a.round == Round(ThisGovernance, id)
    ensures var list := c.multisig.Confirmed(a.round) + [a.owner];
            && |list| == c.multisig.threshold
            && Distinct(list)
            && (forall o :: o in list ==> o in c.multisig.owners)
    ensures a.round !in Step(c, a).value.multisig.confirmations
  {
  }

  /** Call number n of the run is this owner's own confirmation in this round, and it succeeded. */
  ghost predicate ConfirmsAt(start: Chain, actions: seq<Action>, n: nat, owner: Address, round: Round)
    requires n < |actions|
  {
    var a := actions[n];
    a.ConfirmVeto? && a.owner == owner && a.round == round && Step(Run(start, actions[..n]), a).Ok?
  }

  ghost predicate HasConfirmed(start: Chain, actions: seq<Action>, owner: Address, round: Round) {
    exists n: nat :: n < |actions| && ConfirmsAt(start, actions, n, owner, round)
  }

  lemma ConfirmedStays(start: Chain, actions: seq<Action>, a: Action, owner: Address, round: Round)
    requires HasConfirmed(start, actions, owner, round)
    ensures HasConfirmed(start, actions + [a], owner, round)
  {
    hide Run, Step;
    var n: nat :| n < |actions| && ConfirmsAt(start, actions, n, owner, round);
    assert (actions + [a])[..n] == actions[..n];
    assert ConfirmsAt(start, actions + [a], n, owner, round);
  }

  lemma ConfirmsLast(start: Chain, actions: seq<Action>, a: Action)
    requires a.ConfirmVeto? && Step(Run(start, actions), a).Ok?
    ensures HasConfirmed(start, actions + [a], a.owner, a.round)
  {
    hide Run, Step;
    assert (actions + [a])[..|actions|] == actions;
    assert ConfirmsAt(start, actions + [a], |actions|, a.owner, a.round);
  }

  /** A name gets on a list only by its owner's own confirmation. */
  lemma ListGrowsByConfirming(c: Chain, a: Action, round: Round, owner: Address)
    requires Step(c, a).Ok?
    requires owner in Step(c, a).value.multisig.Confirmed(round) && owner !in c.multisig.Confirmed(round)
    ensures a.ConfirmVeto? && a.owner == owner && a.round == round
  {
  }

  /** Every owner listed for a round has confirmed in it, by a call of the run. */
  lemma {:induction false} ListedOwnersConfirmed(start: Chain, actions: seq<Action>, round: Round, owner: Address)
    requires Genesis(start) && owner in Run(start, actions).multisig.Confirmed(round)
    ensures HasConfirmed(start, actions, owner, round)
  {
    if 0 < |actions| {
      var before, last := actions[..|actions| - 1], actions[|actions| - 1];
      assert actions == before + [last];
      var c := Run(start, before);
      if owner in c.multisig.Confirmed(round) {
        ListedOwnersConfirmed(start, before, round, owner);
        ConfirmedStays(start, before, last, owner, round);
      } else {
        ListGrowsByConfirming(c, last, round, owner);
        ConfirmsLast(start, before, last);
      }
    }
  }

  /**
   In any run from initialisation in which a call vetoes a pending proposal while the multisig
   is guardian, exactly `threshold` distinct owners have confirmed that veto by calls of their
   own, that call included; and however the run goes on, the proposal is never executed.
   */
  lemma {:induction false} VetoTakesTheThreshold(start: Chain, actions: seq<Action>, a: Action, id: nat,
                                                 more: seq<Action>, calleeOk: bool, order: seq<Address>)
    requires Genesis(start)
    requires var c := Run(start, actions);
             && c.gov.guardian == MultisigContract && c.Open(id)
             && Step(c, a).Ok? && Step(c, a).value.gov.proposals[id].status == Vetoed
    ensures exists confirmed: set<Address> ::
              && |confirmed| == start.multisig.threshold
              && confirmed <= Members(start.multisig.owners)
              && forall o :: o in confirmed ==> HasConfirmed(start, actions + [a], o, Round(ThisGovernance, id))
    ensures Step(Run(Step(Run(start, actions), a).value, more), Execute(id, calleeOk, order)) == Err(NotPending)
  {
    var c := Run(start, actions);
    ReachableInvariant(start, actions);
    VetoingStep(start, c, a, id);
    StepGrowsProposals(c, a);
    DecisionsAreFinal(Step(c, a).value, more, id);
    var round := Round(ThisGovernance, id);
    var list := c.multisig.Confirmed(round) + [a.owner];
    DistinctCount(list);
    forall o | o in Members(list)
      ensures HasConfirmed(start, actions + [a], o, round)
    {
      ConfirmerOf(start, actions, a, o);
    }
    assert Members(list) <= Members(start.multisig.owners);
  }

  lemma ConfirmerOf(start: Chain, actions: seq<Action>, a: Action, o: Address)
    requires Genesis(start) && a.ConfirmVeto? && Step(Run(start, actions), a).Ok?
    requires o in Run(start, actions).multisig.Confirmed(a.round) + [a.owner]
    ensures HasConfirmed(start, actions + [a], o, a.round)
  {
    ConfirmsLast(start, actions, a);
    hide Run, HasConfirmed, Step;
    if o != a.owner {
      ListedOwnersConfirmed(start, actions, a.round, o);
      ConfirmedStays(start, actions, a, o, a.round);
    }
  }

  /** In no reachable state can a round on a proposal that is not pending complete. */
  lemma {:induction false} ClosedRoundsCannotComplete(start: Chain, actions: seq<Action>, owner: Address, id: nat, calleeOk: bool)
    requires Genesis(start) && !Run(start, actions).Open(id)
    ensures var c, a := Run(start, actions), ConfirmVeto(owner, Round(ThisGovernance, id), calleeOk);
            Step(c, a).Ok? ==>
              && Step(c, a).value.gov == c.gov
              && |c.multisig.Confirmed(a.round)| + 1 < c.multisig.threshold
  {
    ReachableInvariant(start, actions);
    hide Run;
  }

  // ---------------------------------------------------------------------------
  // When a veto is possible at all
  // ---------------------------------------------------------------------------

  /** The owners may repeat. With fewer distinct owners than the threshold, no confirmation ever vetoes anything. */
  lemma TooFewOwnersNeverVeto(start: Chain, c: Chain, owner: Address, round: Round, calleeOk: bool)
    requires Invariant(start, c) && |Members(c.multisig.owners)| < c.multisig.threshold
    requires Step(c, ConfirmVeto(owner, round, calleeOk)).Ok?
    ensures Step(c, ConfirmVeto(owner, round, calleeOk)).value.gov == c.gov
  {
    var list := c.multisig.Confirmed(round) + [owner];
    if round in c.multisig.confirmations {
      assert Distinct(c.multisig.confirmations[round]);
    }
    assert Distinct(list);
    DistinctCount(list);
    assert Members(list) <= Members(c.multisig.owners);
    CardinalityOfSubset(Members(list), Members(c.multisig.owners));
  }

  lemma {:induction false} CardinalityOfSubset(a: set<Address>, b: set<Address>)
    requires a <= b
    ensures |a| <= |b|
  {
    if a != {} {
      var x :| x in a;
      CardinalityOfSubset(a - {x}, b - {x});
    }
  }

  /** With enough distinct owners, confirmations alone veto any pending proposal. */
  lemma {:induction false} EnoughOwnersCanVeto(start: Chain, c: Chain, id: nat) returns (actions: seq<Action>)
    requires Invariant(start, c) && c.gov.guardian == MultisigContract && c.Open(id)
    requires c.multisig.threshold <= |Members(c.multisig.owners)|
    ensures var c' := Run(c, actions);
            id < |c'.gov.proposals| && c'.gov.proposals[id].status == Vetoed
    decreases c.multisig.threshold - |c.multisig.Confirmed(Round(ThisGovernance, id))|
  {
    var round := Round(ThisGovernance, id);
    var list := c.multisig.Confirmed(round);
    var owner := MissingOwner(c.multisig, list);
    var a := ConfirmVeto(owner, round, true);
    var c' := Step(c, a).value;
    InvariantStep(start, c, a);
    if |list| + 1 == c.multisig.threshold {
      actions := [a];
      assert Run(c, [a][..0]) == c;
    } else {
      var rest := EnoughOwnersCanVeto(start, c', id);
      actions := [a] + rest;
      RunFrom(c, a, rest);
    }
  }

  lemma MissingOwner(m: Multisig, list: seq<Address>) returns (owner: Address)
    requires m.RoundsOpen() && (list == [] || exists r :: r in m.confirmations && m.confirmations[r] == list)
    requires 1 <= m.threshold <= |Members(m.owners)|
    ensures owner in m.owners && owner !in list
  {
    assert Distinct(list) && |list| < m.threshold;
    DistinctCount(list);
    if Members(m.owners) <= Members(list) {
      CardinalityOfSubset(Members(m.owners), Members(list));
      assert false;
    }
    owner :| owner in Members(m.owners) && owner !in Members(list);
  }

  lemma {:induction false} RunFrom(c: Chain, a: Action, rest: seq<Action>)
    ensures Run(c, [a] + rest) == Run(Apply(c, a), rest)
  {
    var all := [a] + rest;
    if |rest| == 0 {
      assert all == [a] && [a][..0] == [];
    } else {
      RunFrom(c, a, rest[..|rest| - 1]);
      assert all[..|all| - 1] == [a] + rest[..|rest| - 1];
    }
  }
}
