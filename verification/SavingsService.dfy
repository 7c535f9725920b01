/** The savings goals service: checks and writes in the order the service makes them. */
module SavingsServices {
  import opened Base
  import opened Ledger
  import opened LedgerServices
  import opened Savings

  class SavingsGoalsService {
    const ledger: LedgerService
    var goals: seq<Goal>
    var log: seq<GoalEntry>

    constructor (ledger: LedgerService, goals: seq<Goal>, log: seq<GoalEntry>)
      ensures this.ledger == ledger && this.goals == goals && this.log == log
    {
      this.ledger, this.goals, this.log := ledger, goals, log;
    }

    function Tables(): Savings
      reads this, ledger
    {
      Savings(ledger.Tables(), goals, log)
    }

    method AddContribution(b: BusinessId, r: Request) returns (problem: Option<SavingsError>)
      requires r.Contribute? && r.amount > 0
      modifies this`log, ledger
      ensures match Perform(old(Tables()), b, r)
        case Ok(s) => problem == None && Tables() == s
        case Err(e) => problem == Some(e) && Tables() == old(Tables())
    {
      if !HasGoal(Tables(), b, r.goal) {
        return Some(GoalNotFound);
      }
      if !IsMoneyAccount(ledger.accounts, b, r.money) {
        return Some(NotMoneyAccount);
      }
      if !IsWalletOf(ledger.accounts, b, r.wallet) {
        return Some(NotSavingsWallet);
      }
      if goals[r.goal].status.Withdrawn? {
        return Some(GoalWithdrawn);
      }
      var posted := ledger.Post(b, ContributionPosting(r));
      if posted.Err? {
        return Some(Refused(posted.error));
      }
      log := log + [GoalEntry(r.goal, Contribution, r.amount, r.date, Some(posted.value))];
      return None;
    }

    method Transfer(b: BusinessId, r: Request) returns (problem: Option<SavingsError>)
      requires r.Move? && r.amount > 0
      modifies this`log
      ensures match Perform(old(Tables()), b, r)
        case Ok(s) => problem == None && Tables() == s
        case Err(e) => problem == Some(e) && Tables() == old(Tables())
    {
      if r.from == r.to {
        return Some(SameGoal);
      }
      if !HasGoal(Tables(), b, r.from) || !HasGoal(Tables(), b, r.to) {
        return Some(GoalNotFound);
      }
      if goals[r.to].status.Withdrawn? {
        return Some(GoalWithdrawn);
      }
      var saved := ComputeCurrentAmount(log, r.from);
      if saved < r.amount {
        return Some(NotEnoughSaved);
      }
      log := log + [GoalEntry(r.from, TransferOut, r.amount, r.date, None)];
      log := log + [GoalEntry(r.to, TransferIn, r.amount, r.date, None)];
      return None;
    }

    method Withdraw(b: BusinessId, r: Request) returns (problem: Option<SavingsError>)
      requires r.CashOut?
      modifies this`log, this`goals, ledger
      ensures match Perform(old(Tables()), b, r)
        case Ok(s) => problem == None && Tables() == s
        case Err(e) => problem == Some(e) && Tables() == old(Tables())
    {
      if !HasGoal(Tables(), b, r.goal) {
        return Some(GoalNotFound);
      }
      if goals[r.goal].status.Withdrawn? {
        return Some(GoalWithdrawn);
      }
      var saved := ComputeCurrentAmount(log, r.goal);
      if saved <= 0 {
        return Some(NothingSaved);
      }
      if !IsWalletOf(ledger.accounts, b, r.wallet) {
        return Some(NotSavingsWallet);
      }
      if ledger.accounts[r.wallet].current < saved {
        return Some(NotEnoughInWallet);
      }
      if !IsExpenseOf(ledger.accounts, b, r.expense) {
        return Some(NotExpenseAccount);
      }
      var posted := ledger.Post(b, CashOutPosting(r, saved));
      if posted.Err? {
        return Some(Refused(posted.error));
      }
      log := log + [GoalEntry(r.goal, Withdrawal, saved, r.date, Some(posted.value))];
      goals := goals[r.goal := goals[r.goal].(status := Withdrawn)];
      return None;
    }

    /** Completes a goal that has reached its target; COMPLETED and WITHDRAWN goals are left alone. */
    method MaybeMarkCompleted(g: GoalId)
      requires g < |goals|
      modifies this`goals
      ensures Tables() == if CurrentAmount(log, g) >= old(goals)[g].target then Happen(old(Tables()), MarkCompleted(g))
        else old(Tables())
    {
      if goals[g].status.Completed? || goals[g].status.Withdrawn? {
        return;
      }
      var amount := ComputeCurrentAmount(log, g);
      if amount >= goals[g].target && (goals[g].status.Active? || goals[g].status.Paused?) {
        goals := goals[g := goals[g].(status := Completed)];
      }
    }
  }
}
