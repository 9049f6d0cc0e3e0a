/** The reserve manager object: its in-place updates follow the reserve state machine. */
module ReserveManager {
  import opened Basics
  import opened ReserveLedger

  class Manager {
    var total: real
    var available: real
    var deployed: real
    var toCollateral: real
    var toTrading: real
    var deploymentRatio: real
    var health: real
    var deploymentHistory: seq<Record>
    ghost var splits: seq<Split>

    function Reserves(): Reserves
      reads this
    {
      ReserveLedger.Reserves(total, available, deployed, toCollateral, toTrading, deploymentRatio, health)
    }

    ghost function Account(): Account
      reads this
    {
      ReserveLedger.Account(Reserves(), deploymentHistory, splits)
    }

    constructor (initial: real)
      ensures Account() == Run(initial, [])
    {
      total, available, deployed, toCollateral, toTrading := initial, initial, 0.0, 0.0, 0.0;
      deploymentRatio, health := 0.0, 100.0;
      deploymentHistory, splits := [], [];
    }

    method UpdateDeployment(amount: real, action: Action)
      modifies this
      ensures Reserves() == Deploy(old(Reserves()), amount, action)
      ensures deploymentHistory == old(deploymentHistory) && splits == old(splits)
    {
      if action == DeployToCollateral {
        toCollateral := toCollateral + amount;
        deployed := deployed + amount;
        available := available - amount;
      } else if action == DeployToTrading {
        toTrading := toTrading + amount;
        deployed := deployed + amount;
        available := available - amount;
      } else if action == WithdrawFromTrading {
        toTrading := toTrading - amount;
        deployed := deployed - amount;
        available := available + amount;
      }
      deploymentRatio := if total > 0.0 then deployed / total else 0.0;
      health := if total > 0.0 then available / total * 100.0 else 0.0;
    }

    method ProcessDeploymentRequest(request: Request) returns (record: Record)
      modifies this
      ensures (Reserves(), record) == Process(old(Reserves()), request)
      ensures deploymentHistory == old(deploymentHistory) + [record] && splits == old(splits)
    {
      var deployable := Deployable(Reserves());
      var amount;
      if request.emergency && request.action == EmergencyDeploy {
        amount := Min(request.amount, available - 100.0);
      } else {
        amount := Min(request.amount, deployable);
      }
      record := Record(request, amount, available, 0.0, deployed, 0.0, false);
      if amount <= 0.0 {
        deploymentHistory := deploymentHistory + [record];
        return;
      }
      UpdateDeployment(amount, request.action);
      record := record.(reservesAfter := available, deployedAfter := deployed, success := true);
      deploymentHistory := deploymentHistory + [record];
    }

    /** Updating the health score divides by the new total. */
    method ProcessProfitRebalance(profit: real, target: real, minAddition: real) returns (d: Split)
      requires 0.0 < total
      modifies this
      ensures Account() == Step(old(Account()), Profit(profit, target, minAddition))
      ensures splits == old(splits) + [d]
    {
      d := SplitProfit(Reserves(), profit, target, minAddition);
      if d.toReserves > 0.0 {
        total := total + d.toReserves;
        available := available + d.toReserves;
        health := Min(100.0, available / total * 100.0);
      }
      splits := splits + [d];
    }

    method WithdrawFromTradingCapital(amount: real) returns (success: bool)
      modifies this
      ensures Account() == Step(old(Account()), Withdrawal(amount))
      ensures success <==> amount <= old(toTrading) && 0.0 < amount && 0.0 < Deployable(old(Reserves()))
    {
      if amount > toTrading {
        return false;
      }
      var record := ProcessDeploymentRequest(Request(amount, WithdrawFromTrading, false));
      return record.success;
    }

    /** Publishes the withdrawal it asked for, whatever came back. */
    method RebalanceCheck() returns (published: Option<real>)
      modifies this
      ensures Account() == Rebalanced(old(Account()))
      ensures published == PublishedWithdrawal(old(Reserves()))
    {
      published := None;
      if toTrading > total * 0.5 {
        var amount := toTrading * 0.2;
        var success := WithdrawFromTradingCapital(amount);
        if success {
          published := Some(amount);
        }
      }
    }
  }
}
