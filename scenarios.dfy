/**
 * Client code that drives the ledger through the documented sequences of
 * commands and queries; each assertion follows from the ledger's contracts
 * alone.
 */
module Scenarios {
  import opened LedgerSpec
  import opened BudgetController

  /** A salary of 1000 and a rent of 300 leave 700, thirty percent of income spent. */
  method SalaryAndRent() {
    var l := new Ledger();
    var salary := l.AddItem(Inc, "Salary", 1000);
    var rent := l.AddItem(Exp, "Rent", 300);
    assert salary.income.id == 0 && rent.expense.id == 0;
    assert l.incomes == [salary.income] && l.expenses == [rent.expense];
    assert l.Values(Inc) == [1000];
    BudgetOfOneIncomeOneExpense(l, rent.expense);
  }

  /** Recomputing a ledger holding an income of 1000 and an expense of 300. */
  method BudgetOfOneIncomeOneExpense(l: Ledger, rent: Expense)
    requires l.Valid() && l.Values(Inc) == [1000] && l.expenses == [rent] && rent.value == 300
    modifies l, rent
  {
    l.CalculateBudget();
    assert l.Values(Exp) == [300];
    assert Sum([1000]) == 1000 && Sum([300]) == 300;
    ThirtyPercent();
    assert l.GetBudget() == Budget(700, 1000, 300, 30);
    l.CalculatePercentages();
    assert l.GetPercentages() == [30];
  }

  lemma ThirtyPercent()
    ensures Percent(300, 1000) == 30
  {
  }

  /** Without income both the spend percentage and every expense percentage are the sentinel. */
  method ExpenseWithoutIncome() {
    var l := new Ledger();
    var x := l.AddItem(Exp, "X", 50);
    l.CalculateBudget();
    assert l.GetBudget().percentage == Sentinel;
    l.CalculatePercentages();
    assert l.GetPercentages() == [Sentinel];
  }

  /** Deleting a non-tail expense does not lower the next id: it follows the tail. */
  method NextIdFollowsTail() {
    var l := new Ledger();
    var a := l.AddItem(Exp, "A", 10);
    var b := l.AddItem(Exp, "B", 20);
    assert l.Ids(Exp) == [0, 1];
    l.DeleteItem(Exp, 0);
    assert IndexOf([0, 1], 0) == 0;
    assert l.Ids(Exp) == [1];
    var c := l.AddItem(Exp, "C", 30);
    assert c.expense.id == 2;
  }

  /** Deleting the newest income hands its id out again; deleting an absent id changes nothing. */
  method NewestIdIsReused() {
    var l := new Ledger();
    var a := l.AddItem(Inc, "A", 10);
    var b := l.AddItem(Inc, "B", 20);
    assert l.Ids(Inc) == [0, 1];
    assert 7 !in [0, 1];
    l.DeleteItem(Inc, 7);
    assert l.Ids(Inc) == [0, 1];
    l.DeleteItem(Inc, 1);
    assert IndexOf([0, 1], 1) == 1;
    assert l.Ids(Inc) == [0];
    var c := l.AddItem(Inc, "C", 30);
    assert c.income.id == 1;
  }

  /** Recomputing the budget twice without an edit in between gives the same figures. */
  method RecalculateTwice(l: Ledger)
    requires l.Valid()
    modifies l
  {
    l.CalculateBudget();
    var first := l.GetBudget();
    l.CalculateBudget();
    assert l.GetBudget() == first;
  }

  /** Whatever the ledger has been through, every reported expense percentage is the sentinel or a share. */
  method PercentagesAreSentinelOrShares(l: Ledger)
    requires l.Valid()
  {
    var ps := l.GetPercentages();
    assert forall i :: 0 <= i < |ps| ==> ps[i] == Sentinel || ps[i] >= 0;
  }

  /** `n` expense additions to a new ledger, with no deletion, hand out the ids 0 to n - 1. */
  method AddExpenses(n: nat) returns (l: Ledger)
    ensures l.Valid()
    ensures l.Ids(Exp) == IdsAfterAdds(n)
    ensures forall i :: 0 <= i < n ==> i < |l.Ids(Exp)| && l.Ids(Exp)[i] == i
  {
    l := new Ledger();
    var i := 0;
    while i < n
      invariant 0 <= i <= n
      invariant fresh(l) && l.Valid()
      invariant l.Ids(Exp) == IdsAfterAdds(i)
    {
      var item := l.AddItem(Exp, "Expense", 1);
      i := i + 1;
    }
    IdsAfterAddsCount(n);
  }

  /** Deleting an expense and recomputing lowers the expense total by exactly its value. */
  method DeleteThenRecalculate(l: Ledger, id: int)
    requires l.Valid() && id in l.Ids(Exp)
    modifies l
    ensures l.Valid()
  {
    l.CalculateBudget();
    var before := l.totalExp;
    var k := IndexOf(l.Ids(Exp), id);
    var values := l.Values(Exp);
    l.DeleteItem(Exp, id);
    l.CalculateBudget();
    SumRemoveAt(values, k);
    assert l.totalExp == before - values[k];
    assert l.budget == l.totalInc - before + values[k];
  }
}
