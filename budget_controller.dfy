/**
 * The budget ledger: two ordered sequences of income and expense records and
 * the stored totals, which are recomputed only when asked.
 */
module BudgetController {
  import opened LedgerSpec

  /** Which of the two sequences an operation acts on ("inc" or "exp"). */
  datatype Kind = Inc | Exp

  /** An income record; nothing ever changes it after it is created. */
  datatype Income = Income(id: nat, description: string, value: nat)

  /** An expense record; its percentage of the total income is updated in place. */
  class Expense {
    const id: nat
    const description: string
    const value: nat
    var percentage: int

    constructor (id: nat, description: string, value: nat)
      ensures this.id == id && this.description == description && this.value == value
      ensures percentage == Sentinel
      ensures Valid()
    {
      this.id := id;
      this.description := description;
      this.value := value;
      percentage := Sentinel;
    }

    /** Stores the rounded share of `totalIncome` this expense represents, or the sentinel. */
    method CalcPercentage(totalIncome: int)
      modifies this`percentage
      ensures Valid()
      ensures percentage == Percent(value, totalIncome)
      ensures percentage == Sentinel <==> totalIncome <= 0
      ensures totalIncome > 0 ==>
                2 * totalIncome * percentage - totalIncome <= 200 * value < 2 * totalIncome * percentage + totalIncome
    {
      if totalIncome > 0 {
        percentage := RoundedPercent(value, totalIncome);
      } else {
        percentage := Sentinel;
      }
    }

    /** The stored percentage is the sentinel or a non-negative whole percentage. */
    ghost predicate Valid()
      reads this
    {
      percentage == Sentinel || percentage >= 0
    }

    /** The stored percentage as it is, never recomputed: the sentinel or a share. */
    function GetPercentage(): (p: int)
      requires Valid()
      reads this
      ensures p == percentage
      ensures p == Sentinel || p >= 0
    {
      percentage
    }
  }

  /** The record `addItem` returns: the income or the expense it appended. */
  datatype Item = IncomeItem(income: Income) | ExpenseItem(expense: Expense)

  /** The four stored figures `getBudget` reports. */
  datatype Budget = Budget(budget: int, totalInc: int, totalExp: int, percentage: int)

  /**
   * One field of every record, in sequence order. Incomes and expenses share
   * no supertype, so the field is passed as a function.
   */
  function Column<T>(s: seq<T>, field: T -> nat): (c: seq<nat>)
    ensures |c| == |s| && forall i :: 0 <= i < |s| ==> c[i] == field(s[i])
  {
    seq(|s|, i requires 0 <= i < |s| => field(s[i]))
  }

  /**
   * The caller's guard before an entry reaches the ledger: a description and
   * a positive value. What it buys is proved downstream: totals are never
   * negative and the income total is positive exactly when there is an
   * income (Ledger.TotalsOfRecords, Ledger.CalculateBudget).
   */
  function AcceptedInput(description: string, value: int): (ok: bool)
    ensures ok <==> |description| > 0 && value >= 1
    ensures ok ==> AllPositive([value])
  {
    description != "" && value > 0
  }

  class Ledger {
    var incomes: seq<Income>
    var expenses: seq<Expense>
    var totalInc: int
    var totalExp: int
    var budget: int
    var percentage: int

    /** The records are well formed and the stored figures, however stale, agree with each other. */
    ghost predicate Valid()
      reads this, expenses
    {
      RecordsValid() && FiguresAgree()
    }

    /**
     * Ids grow strictly along each sequence, every stored entry passed the
     * caller's guard, and every expense percentage is the sentinel or a share.
     */
    ghost predicate RecordsValid()
      reads this`incomes, this`expenses, expenses
    {
      && StrictlyIncreasing(Ids(Inc))
      && StrictlyIncreasing(Ids(Exp))
      && (forall i :: 0 <= i < |incomes| ==> AcceptedInput(incomes[i].description, incomes[i].value))
      && (forall i :: 0 <= i < |expenses| ==>
            AcceptedInput(expenses[i].description, expenses[i].value) && expenses[i].Valid())
    }

    /** The stored budget and percentage follow from the stored totals. */
    ghost predicate FiguresAgree()
      reads this`totalInc, this`totalExp, this`budget, this`percentage
    {
      && totalInc >= 0 && totalExp >= 0
      && budget == totalInc - totalExp
      && percentage == Percent(totalExp, totalInc)
    }

    function Ids(kind: Kind): seq<nat>
      reads this`incomes, this`expenses
    {
      if kind == Inc then Column(incomes, (r: Income) => r.id) else Column(expenses, (e: Expense) => e.id)
    }

    function Values(kind: Kind): seq<int>
      reads this`incomes, this`expenses
    {
      if kind == Inc then Column(incomes, (r: Income) => r.value) else Column(expenses, (e: Expense) => e.value)
    }

    constructor ()
      ensures Valid()
      ensures incomes == [] && expenses == []
      ensures totalInc == 0 && totalExp == 0 && budget == 0 && percentage == Sentinel
    {
      incomes, expenses := [], [];
      totalInc, totalExp := 0, 0;
      budget := 0;
      percentage := Sentinel;
    }

    /**
     * Appends one new record with the next id to the sequence of `kind` and
     * returns it; the other sequence and the stored figures stay as they were.
     */
    method AddItem(kind: Kind, description: string, value: int) returns (item: Item)
      requires Valid() && AcceptedInput(description, value)
      modifies this
      ensures Valid()
      ensures Ids(kind) == old(Ids(kind)) + [NextId(old(Ids(kind)))]
      ensures kind == Inc ==>
                && item == IncomeItem(Income(NextId(old(Ids(kind))), description, value))
                && incomes == old(incomes) + [item.income]
                && expenses == old(expenses)
      ensures kind == Exp ==>
                && item.ExpenseItem? && fresh(item.expense)
                && item.expense.id == NextId(old(Ids(kind)))
                && item.expense.description == description && item.expense.value == value
                && item.expense.percentage == Sentinel
                && expenses == old(expenses) + [item.expense]
                && incomes == old(incomes)
      ensures totalInc == old(totalInc) && totalExp == old(totalExp)
      ensures budget == old(budget) && percentage == old(percentage)
    {
      var ids := Ids(kind);
      var id: nat;
      if |ids| > 0 {
        id := ids[|ids| - 1] + 1;
      } else {
        id := 0;
      }
      AppendNextIdKeepsIncreasing(ids);
      if kind == Inc {
        var income := Income(id, description, value);
        incomes := incomes + [income];
        item := IncomeItem(income);
        assert Ids(Inc) == ids + [id];
      } else {
        var expense := new Expense(id, description, value);
        expenses := expenses + [expense];
        item := ExpenseItem(expense);
        assert Ids(Exp) == ids + [id];
      }
    }

    /**
     * Removes the record with id `id` from the sequence of `kind`, keeping the
     * others in order, or does nothing when no record has that id.
     */
    method DeleteItem(kind: Kind, id: int)
      requires Valid()
      modifies this
      ensures Valid()
      ensures id !in Ids(kind)
      ensures id in old(Ids(kind)) <==> |Ids(kind)| == |old(Ids(kind))| - 1
      ensures id !in old(Ids(kind)) ==> incomes == old(incomes) && expenses == old(expenses)
      ensures id in old(Ids(kind)) ==>
                var k := IndexOf(old(Ids(kind)), id);
                if kind == Inc then incomes == RemoveAt(old(incomes), k) && expenses == old(expenses)
                else expenses == RemoveAt(old(expenses), k) && incomes == old(incomes)
      ensures id in old(Ids(kind)) ==> Values(kind) == RemoveAt(old(Values(kind)), IndexOf(old(Ids(kind)), id))
      ensures totalInc == old(totalInc) && totalExp == old(totalExp)
      ensures budget == old(budget) && percentage == old(percentage)
    {
      var ids, values := Ids(kind), Values(kind);
      var index := IndexOf(ids, id);
      if index != -1 {
        RemoveAtKeepsIncreasing(ids, index);
        if kind == Inc {
          incomes := RemoveAt(incomes, index);
          assert Ids(Inc) == RemoveAt(ids, index);
          assert Values(Inc) == RemoveAt(values, index);
        } else {
          expenses := RemoveAt(expenses, index);
          assert Ids(Exp) == RemoveAt(ids, index);
          assert Values(Exp) == RemoveAt(values, index);
        }
      }
    }

    /**
     * Sums the values of `kind` into its stored total; nothing else changes.
     * This is the private helper of CalculateBudget: it keeps the records
     * valid, but the stored figures agree again only once CalculateBudget
     * has recomputed the budget and the percentage.
     */
    method CalculateTotal(kind: Kind)
      requires RecordsValid()
      modifies this`totalInc, this`totalExp
      ensures RecordsValid()
      ensures kind == Inc ==> totalInc == Sum(Values(Inc)) && totalExp == old(totalExp)
      ensures kind == Exp ==> totalExp == Sum(Values(Exp)) && totalInc == old(totalInc)
    {
      var values := Values(kind);
      var sum := 0;
      var i := 0;
      while i < |values|
        invariant 0 <= i <= |values|
        invariant sum == Sum(values[..i])
      {
        assert values[..i + 1][..i] == values[..i];
        sum := sum + values[i];
        i := i + 1;
      }
      assert values[..i] == values;
      if kind == Inc {
        totalInc := sum;
      } else {
        totalExp := sum;
      }
    }

    /** Totals of accepted records are never negative, and the income total is positive exactly when there is an income. */
    lemma TotalsOfRecords()
      requires RecordsValid()
      ensures Sum(Values(Inc)) >= 0 && Sum(Values(Exp)) >= 0
      ensures Sum(Values(Inc)) > 0 <==> |incomes| > 0
    {
      SumOfPositive(Values(Inc));
      SumOfPositive(Values(Exp));
    }

    /**
     * Recomputes both totals from the current records, the budget as their
     * difference and the share of income spent, or the sentinel when there
     * is no income.
     */
    method CalculateBudget()
      requires Valid()
      modifies this`totalInc, this`totalExp, this`budget, this`percentage
      ensures Valid()
      ensures totalInc == Sum(Values(Inc)) && totalExp == Sum(Values(Exp))
      ensures budget == totalInc - totalExp
      ensures percentage == Percent(totalExp, totalInc)
      ensures percentage == Sentinel <==> |incomes| == 0
    {
      TotalsOfRecords();
      CalculateTotal(Inc);
      CalculateTotal(Exp);
      budget := totalInc - totalExp;
      percentage := Percent(totalExp, totalInc);
    }

    /**
     * Stores in every expense its rounded share of the stored total income,
     * which is used as it is, recomputed or not; nothing else changes.
     */
    method CalculatePercentages()
      requires Valid()
      modifies expenses
      ensures Valid()
      ensures forall i :: 0 <= i < |expenses| ==> expenses[i].percentage == Percent(expenses[i].value, totalInc)
    {
      var i := 0;
      while i < |expenses|
        invariant 0 <= i <= |expenses|
        invariant forall j :: 0 <= j < i ==> expenses[j].percentage == Percent(expenses[j].value, totalInc)
      {
        expenses[i].CalcPercentage(totalInc);
        i := i + 1;
      }
    }

    /** The stored percentage of every expense, in sequence order. */
    function GetPercentages(): (ps: seq<int>)
      requires Valid()
      reads this, expenses
      ensures |ps| == |expenses|
      ensures forall i :: 0 <= i < |expenses| ==> ps[i] == expenses[i].percentage
      ensures forall i :: 0 <= i < |ps| ==> ps[i] == Sentinel || ps[i] >= 0
    {
      seq(|expenses|, i reads this, expenses requires 0 <= i < |expenses| && expenses[i].Valid() =>
        expenses[i].GetPercentage())
    }

    /** The stored figures as they are: no total is recomputed. */
    function GetBudget(): (b: Budget)
      requires Valid()
      reads this, expenses
      ensures b == Budget(budget, totalInc, totalExp, percentage)
      ensures b.budget == b.totalInc - b.totalExp
      ensures b.percentage == Percent(b.totalExp, b.totalInc)
      ensures b.percentage == Sentinel <==> b.totalInc == 0
    {
      Budget(budget, totalInc, totalExp, percentage)
    }
  }
}
