/**
 * The application's `expenses` state and its two handlers: `addExpenses`
 * prepends a submitted batch, and `updateExpenseStatus` sets the status of
 * the record(s) with a given id without looking at their current status.
 */
module Store {

  import opened Types
  import MockData

  /** `expenses.map(e => e.id === id ? { ...e, status } : e)`. */
  function WithStatus(es: seq<Expense>, id: string, status: Decision): seq<Expense>
  {
    if es == [] then []
    else [if es[0].id == id then es[0].(status := status) else es[0]] + WithStatus(es[1..], id, status)
  }

  /**
   * Length and order are preserved; a record whose id matches gets the new
   * status whatever its current one, a record whose id differs keeps its
   * status, and no field other than the status ever changes.
   */
  lemma {:induction false} WithStatusPointwise(es: seq<Expense>, id: string, status: Decision)
    ensures |WithStatus(es, id, status)| == |es|
    ensures forall i :: 0 <= i < |es| ==>
      && WithStatus(es, id, status)[i].status == (if es[i].id == id then status else es[i].status)
      && WithStatus(es, id, status)[i].(status := es[i].status) == es[i]
  {
    if es != [] {
      WithStatusPointwise(es[1..], id, status);
      var r := WithStatus(es, id, status);
      assert forall i :: 1 <= i < |es| ==> r[i] == WithStatus(es[1..], id, status)[i - 1];
    }
  }

  /** Records with other ids come back untouched; with no matching id the list is unchanged. */
  lemma {:induction false} WithStatusMissingId(es: seq<Expense>, id: string, status: Decision)
    requires forall i :: 0 <= i < |es| ==> es[i].id != id
    ensures WithStatus(es, id, status) == es
  {
    if es != [] {
      WithStatusMissingId(es[1..], id, status);
      assert es == [es[0]] + es[1..];
    }
  }

  /** Applying the same decision twice is the same as applying it once. */
  lemma {:induction false} WithStatusIdempotent(es: seq<Expense>, id: string, status: Decision)
    ensures WithStatus(WithStatus(es, id, status), id, status) == WithStatus(es, id, status)
  {
    if es != [] {
      WithStatusIdempotent(es[1..], id, status);
      var once := WithStatus(es, id, status);
      assert once[1..] == WithStatus(es[1..], id, status);
    }
  }

  /** The application state holding every expense record of the session. */
  class ExpenseStore {
    var expenses: seq<Expense>

    /** The state starts out as the seed records. */
    constructor ()
      ensures expenses == MockData.MockExpenses
    {
      expenses := MockData.MockExpenses;
    }

    /** Prepends a submitted batch, newest first, leaving the earlier records as they were. */
    method AddExpenses(newExpenses: seq<Expense>)
      modifies this
      ensures expenses == newExpenses + old(expenses)
      ensures |expenses| == |newExpenses| + |old(expenses)|
      ensures expenses[|newExpenses|..] == old(expenses)
    {
      expenses := newExpenses + expenses;
    }

    /** Records the accountant's decision on the record(s) with the given id. */
    method UpdateExpenseStatus(expenseId: string, status: Decision)
      modifies this
      ensures expenses == WithStatus(old(expenses), expenseId, status)
      ensures |expenses| == |old(expenses)|
      ensures forall i :: 0 <= i < |expenses| ==>
        && expenses[i].status == (if old(expenses)[i].id == expenseId then status else old(expenses)[i].status)
        && expenses[i].(status := old(expenses)[i].status) == old(expenses)[i]
    {
      WithStatusPointwise(expenses, expenseId, status);
      expenses := WithStatus(expenses, expenseId, status);
    }
  }
}
