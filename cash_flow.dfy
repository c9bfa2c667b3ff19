/** The "Flujo de Caja" KPI card of the administrator view: a left fold over
    the project list that adds up budget minus spend, a missing or falsy
    amount read as 0. */
module CashFlow {
  import opened JsValues
  import opened Projects

  /** What one project adds to the running total. */
  function Contribution(p: Project): int {
    NumOr(p.budgetTotal, 0) - NumOr(p.spendToDate, 0)
  }

  /** `ps.reduce((acc, p) => acc + Contribution(p), acc)`: left to right. */
  function Reduce(acc: int, ps: seq<Project>): int
    decreases |ps|
  {
    if ps == [] then acc else Reduce(acc + Contribution(ps[0]), ps[1..])
  }

  /** The KPI value: the fold seeded with 0. */
  function Total(ps: seq<Project>): int {
    Reduce(0, ps)
  }

  /** Reference sums: every budget, every spend, missing or falsy as 0. */
  function TotalBudget(ps: seq<Project>): int
    decreases |ps|
  {
    if ps == [] then 0 else NumOr(ps[0].budgetTotal, 0) + TotalBudget(ps[1..])
  }

  function TotalSpend(ps: seq<Project>): int
    decreases |ps|
  {
    if ps == [] then 0 else NumOr(ps[0].spendToDate, 0) + TotalSpend(ps[1..])
  }

  /** A project's contribution is its budget minus its spend, each the
      field's number when present and 0 when absent or null. */
  lemma ContributionReadsMissingAsZero(p: Project)
    ensures Contribution(p) ==
      (if p.budgetTotal.Present? then p.budgetTotal.value else 0) -
      (if p.spendToDate.Present? then p.spendToDate.value else 0)
  {
    NumOrZero(p.budgetTotal);
    NumOrZero(p.spendToDate);
  }

  /** The fold from any seed adds the budget total and subtracts the spend
      total. */
  lemma {:induction false} ReduceFromSeed(acc: int, ps: seq<Project>)
    ensures Reduce(acc, ps) == acc + TotalBudget(ps) - TotalSpend(ps)
    decreases |ps|
  {
    if ps != [] {
      ReduceFromSeed(acc + Contribution(ps[0]), ps[1..]);
    }
  }

  /** The KPI is the budget total minus the spend total. */
  lemma TotalIsBudgetMinusSpend(ps: seq<Project>)
    ensures Total(ps) == TotalBudget(ps) - TotalSpend(ps)
  {
    ReduceFromSeed(0, ps);
  }

  /** An empty project list gives the seed, 0. */
  lemma TotalOfNoProjects()
    ensures Total([]) == 0
  {
  }

  /** One project gives its own contribution. */
  lemma TotalOfOneProject(p: Project)
    ensures Total([p]) == Contribution(p)
  {
    assert Reduce(0, [p]) == Reduce(Contribution(p), []);
  }

  lemma {:induction false} TotalBudgetAppend(a: seq<Project>, b: seq<Project>)
    ensures TotalBudget(a + b) == TotalBudget(a) + TotalBudget(b)
    decreases |a|
  {
    if a != [] {
      assert (a + b)[0] == a[0] && (a + b)[1..] == a[1..] + b;
      TotalBudgetAppend(a[1..], b);
    } else {
      assert a + b == b;
    }
  }

  lemma {:induction false} TotalSpendAppend(a: seq<Project>, b: seq<Project>)
    ensures TotalSpend(a + b) == TotalSpend(a) + TotalSpend(b)
    decreases |a|
  {
    if a != [] {
      assert (a + b)[0] == a[0] && (a + b)[1..] == a[1..] + b;
      TotalSpendAppend(a[1..], b);
    } else {
      assert a + b == b;
    }
  }

  /** The KPI of two lists put together is the sum of their KPIs. */
  lemma TotalAdditive(a: seq<Project>, b: seq<Project>)
    ensures Total(a + b) == Total(a) + Total(b)
  {
    TotalIsBudgetMinusSpend(a);
    TotalIsBudgetMinusSpend(b);
    TotalIsBudgetMinusSpend(a + b);
    TotalBudgetAppend(a, b);
    TotalSpendAppend(a, b);
  }

  /** The KPI is negative exactly when more has been spent than budgeted. */
  lemma TotalNegativeWhenOverspent(ps: seq<Project>)
    ensures Total(ps) < 0 <==> TotalSpend(ps) > TotalBudget(ps)
  {
    TotalIsBudgetMinusSpend(ps);
  }

  /** The card's text: `$` and the total in the browser's number format. */
  function CardText(ps: seq<Project>, fmt: NumberFormat): (s: string)
    ensures |s| >= 1 && s[0] == '$'
    ensures s[1..] == fmt.localeString(TotalBudget(ps) - TotalSpend(ps))
  {
    TotalIsBudgetMinusSpend(ps);
    "$" + fmt.localeString(Total(ps))
  }
}
