/**
 The timelocked governance contract: the strategist proposes, the guardian may veto, and
 anyone may execute once the timelock has run out.

 `Ledger` numbers the proposals by their position; the contract stores them in a map under
 a running id.
 */
module Governance {
  import opened Common
  import opened FloorArithmetic
  import opened StrategyVaults

  const TIMELOCK_LEDGERS: nat := 51_840

  datatype ProposalAction =
    | SetAllocation(pool: Address, bps: int)
    | UpdateStrategist(strategist: Party)
    | UpdateGuardian(guardian: Party)
    | UpdateTierParam(tierVault: Address, param: int, value: int)

  datatype Status = Pending | Executed | Vetoed

  datatype Proposal = Proposal(action: ProposalAction, proposedAt: nat, status: Status)

  predicate Proposable(action: ProposalAction) {
    action.SetAllocation? ==> 0 <= action.bps <= 10_000
  }

  datatype Ledger = Ledger(strategist: Party, guardian: Party, proposals: seq<Proposal>) {
    function Propose(caller: Party, action: ProposalAction, now: nat): Result<Ledger> {
      if caller != strategist then Err(Unauthorized)
      else if !Proposable(action) then Err(OutOfRange)
      else if U32_MAX < |proposals| + 1 then Err(Trap)
      else Ok(this.(proposals := proposals + [Proposal(action, now, Pending)]))
    }

    function WithStatus(id: nat, status: Status): Ledger
      requires id < |proposals|
    {
      this.(proposals := proposals[id := proposals[id].(status := status)])
    }

    function Veto(caller: Party, id: nat): Result<Ledger> {
      if caller != guardian then Err(Unauthorized)
      else if |proposals| <= id then Err(NotFound)
      else if proposals[id].status != Pending then Err(NotPending)
      else Ok(WithStatus(id, Vetoed))
    }

    /** What must hold before a proposal's action is tried. */
    function MayExecute(id: nat, now: nat): Result<ProposalAction> {
      if |proposals| <= id then Err(NotFound)
      else if proposals[id].status != Pending then Err(NotPending)
      else if now < proposals[id].proposedAt + TIMELOCK_LEDGERS then Err(TimelockRunning)
      else Ok(proposals[id].action)
    }

    function Enact(action: ProposalAction): Ledger {
      match action
      case UpdateStrategist(p) => this.(strategist := p)
      case UpdateGuardian(p) => this.(guardian := p)
      case _ => this
    }
  }

  /** Execution reaches into the strategy vault; a tier parameter goes to a callee outside the model. */
  ghost function ExecuteStep(g: Ledger, s: Strategy, id: nat, now: nat, calleeOk: bool, order: seq<Address>)
    : Result<(Ledger, Strategy)> {
    var action :- g.MayExecute(id, now);
    var s' :-
      match action
      case SetAllocation(pool, bps) => s.SetAllocation(GovernanceContract, pool, bps, order)
      case UpdateTierParam(_, _, _) => if calleeOk then Ok(s) else Err(CalleeFailed)
      case _ => Ok(s);
    Ok((g.Enact(action).WithStatus(id, Executed), s'))
  }

  class TimelockedGovernance {
    var strategist: Party
    var guardian: Party
    var proposals: map<nat, Proposal>
    var nextId: nat
    const vault: StrategyVault

    ghost predicate Valid()
      reads this
    {
      forall id: nat :: id in proposals <==> id < nextId
    }

    ghost function View(): Ledger
      reads this
      requires Valid()
    {
      Ledger(strategist, guardian, seq(nextId, i requires 0 <= i < nextId reads this requires Valid() => proposals[i]))
    }

    constructor (strategist: Party, guardian: Party, vault: StrategyVault)
      ensures Valid() && View() == Ledger(strategist, guardian, []) && this.vault == vault
    {
      this.strategist, this.guardian, this.vault := strategist, guardian, vault;
      proposals, nextId := map[], 0;
    }

    method Propose(caller: Party, action: ProposalAction, now: nat) returns (r: Result<nat>)
      requires Valid()
      modifies this
      ensures Valid()
      ensures match old(View()).Propose(caller, action, now)
              case Ok(g) => r == Ok(old(nextId)) && View() == g
              case Err(e) => r == Err(e) && View() == old(View())
    {
      if caller != strategist {
        return Err(Unauthorized);
      }
      if action.SetAllocation? && (action.bps < 0 || 10_000 < action.bps) {
        return Err(OutOfRange);
      }
      if U32_MAX < nextId + 1 {
        return Err(Trap);
      }
      var id := nextId;
      proposals := proposals[id := Proposal(action, now, Pending)];
      nextId := id + 1;
      return Ok(id);
    }

    method Veto(caller: Party, id: nat) returns (r: Result<()>)
      requires Valid()
      modifies `proposals
      ensures Valid()
      ensures match old(View()).Veto(caller, id)
              case Ok(g) => r == Ok(()) && View() == g
              case Err(e) => r == Err(e) && View() == old(View())
    {
      if caller != guardian {
        return Err(Unauthorized);
      }
      if id !in proposals {
        return Err(NotFound);
      }
      var proposal := proposals[id];
      if proposal.status != Pending {
        return Err(NotPending);
      }
      proposals := proposals[id := proposal.(status := Vetoed)];
      return Ok(());
    }

    /** Anyone may call. `calleeOk` is the answer of a tier vault's setter, which lies outside the model. */
    method Execute(id: nat, now: nat, calleeOk: bool, order: seq<Address>) returns (r: Result<()>)
      requires Valid() && Enumerates(order, vault.allocations)
      modifies this, vault
      ensures Valid()
      ensures match ExecuteStep(old(View()), old(vault.View()), id, now, calleeOk, order)
              case Ok((g, s)) => r == Ok(()) && View() == g && vault.View() == s
              case Err(e) => r == Err(e) && View() == old(View()) && vault.View() == old(vault.View())
    {
      if id !in proposals {
        return Err(NotFound);
      }
      var proposal := proposals[id];
      if proposal.status != Pending {
        return Err(NotPending);
      }
      var elapsed := if now < proposal.proposedAt then 0 else now - proposal.proposedAt;
      if elapsed < TIMELOCK_LEDGERS {
        return Err(TimelockRunning);
      }
      match proposal.action {
        case SetAllocation(pool, bps) =>
          r := vault.SetAllocation(GovernanceContract, pool, bps, order);
          if r.Err? {
            return;
          }
        case UpdateStrategist(p) =>
          strategist := p;
        case UpdateGuardian(p) =>
          guardian := p;
        case UpdateTierParam(_, _, _) =>
          if !calleeOk {
            return Err(CalleeFailed);
          }
      }
      proposals := proposals[id := proposal.(status := Executed)];
      return Ok(());
    }
  }
}
