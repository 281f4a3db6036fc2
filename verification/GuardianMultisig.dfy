/** The multisig that holds the guardian role: a veto is dispatched once enough owners have confirmed it. */
module GuardianMultisig {
  import opened Common
  import opened StrategyVaults
  import opened Governance

  /** The contract an owner wants vetoed: the governance of this model, or any other. */
  datatype Target = ThisGovernance | OtherContract(addr: Address)

  datatype Round = Round(target: Target, id: nat)

  datatype Multisig = Multisig(owners: seq<Address>, threshold: nat, confirmations: map<Round, seq<Address>>) {
    predicate Initialised() {
      1 <= |owners| <= 10 && 1 <= threshold <= |owners|
    }

    function Confirmed(round: Round): seq<Address> {
      if round in confirmations then confirmations[round] else []
    }

    /** Every open round has distinct owners on its list, and fewer than the threshold. */
    ghost predicate RoundsOpen() {
      forall r :: r in confirmations ==>
        && Distinct(confirmations[r])
        && (forall o :: o in confirmations[r] ==> o in owners)
        && |confirmations[r]| < threshold
    }

    /** The answer of a contract outside the model is `calleeOk`. */
    function Dispatch(g: Ledger, round: Round, calleeOk: bool): Result<Ledger> {
      match round.target
      case ThisGovernance => g.Veto(MultisigContract, round.id)
      case OtherContract(_) => if calleeOk then Ok(g) else Err(CalleeFailed)
    }

    function ConfirmVeto(g: Ledger, owner: Address, round: Round, calleeOk: bool): Result<(Multisig, Ledger)> {
      if owner !in owners then Err(Unauthorized)
      else if owner in Confirmed(round) then Err(AlreadyConfirmed)
      else
        var list := Confirmed(round) + [owner];
        if |list| < threshold then Ok((this.(confirmations := confirmations[round := list]), g))
        else
          var g' :- Dispatch(g, round, calleeOk);
          Ok((this.(confirmations := confirmations - {round}), g'))
    }
  }

  class GuardianMultisig {
    const owners: seq<Address>
    const threshold: nat
    var confirmations: map<Round, seq<Address>>
    const governance: TimelockedGovernance

    ghost function View(): Multisig
      reads this
    {
      Multisig(owners, threshold, confirmations)
    }

    constructor (owners: seq<Address>, threshold: nat, governance: TimelockedGovernance)
      requires 1 <= |owners| <= 10 && 1 <= threshold <= |owners|
      ensures View() == Multisig(owners, threshold, map[]) && this.governance == governance
    {
      this.owners, this.threshold, this.governance := owners, threshold, governance;
      confirmations := map[];
    }

    /** The confirmation is stored first; if the dispatched veto panics, the host takes it back. */
    method ConfirmVeto(owner: Address, round: Round, calleeOk: bool) returns (r: Result<()>)
      requires governance.Valid()
      modifies `confirmations, governance
      ensures governance.Valid()
      ensures match old(View()).ConfirmVeto(old(governance.View()), owner, round, calleeOk)
              case Ok((m, g)) => r == Ok(()) && View() == m && governance.View() == g
              case Err(e) => r == Err(e) && View() == old(View()) && governance.View() == old(governance.View())
    {
      if owner !in owners {
        return Err(Unauthorized);
      }
      var before := confirmations;
      var list := if round in confirmations then confirmations[round] else [];
      if owner in list {
        return Err(AlreadyConfirmed);
      }
      list := list + [owner];
      confirmations := confirmations[round := list];
      if |list| < threshold {
        return Ok(());
      }
      if round.target == ThisGovernance {
        r := governance.Veto(MultisigContract, round.id);
      } else {
        r := if calleeOk then Ok(()) else Err(CalleeFailed);
      }
      confirmations := if r.Ok? then confirmations - {round} else before;
      assert before[round := list] - {round} == before - {round};
    }
  }
}
