/**
 * The three request handlers that write the ledger, as methods of an object
 * that owns the list of customer records between requests.
 */
module Routes {
  import opened Wrappers
  import opened Customers

  class Ledger {
    /** The registered parties, in registration order. */
    var customers: seq<Customer>

    /** The ledger when no data file exists yet: no parties. */
    constructor ()
      ensures customers == []
    {
      customers := [];
    }

    /**
     * POST /register: run the checks of `Admit` against the current records;
     * on success append the new party at the end, otherwise change nothing and
     * report the first failed check.
     */
    method Register(form: RegisterForm) returns (outcome: Outcome<RegisterError>)
      modifies this
      ensures customers == Apply(old(customers), Request.Register(form))
      ensures outcome.Pass? <==> Admit(old(customers), form).Success?
      ensures outcome.Fail? ==> outcome.error == Admit(old(customers), form).error && customers == old(customers)
      ensures outcome.Pass? ==>
        && customers == old(customers) + [Admit(old(customers), form).value]
        && TotalPeople(customers) == TotalPeople(old(customers)) + customers[|customers| - 1].amount <= Capacity
    {
      var verdict := Admit(customers, form);
      if verdict.Success? {
        AdmitKeepsCapacity(customers, form);
        customers := customers + [verdict.value];
        outcome := Pass;
      } else {
        outcome := Fail(verdict.error);
      }
    }

    /**
     * POST /arrived: walk the records in order and set each one's arrived
     * flag to whether its name is among the ticked names.
     */
    method MarkArrived(selected: seq<string>)
      modifies this
      ensures customers == WithArrivals(old(customers), selected)
      ensures customers == Apply(old(customers), Arrived(selected))
      ensures TotalPeople(customers) == TotalPeople(old(customers))
    {
      var i := 0;
      while i < |customers|
        invariant 0 <= i <= |customers| == |old(customers)|
        invariant forall k :: 0 <= k < i ==> customers[k] == MarkFrom(old(customers)[k], selected)
        invariant forall k :: i <= k < |customers| ==> customers[k] == old(customers)[k]
      {
        customers := customers[i := customers[i].(arrived := customers[i].name in selected)];
        i := i + 1;
      }
      WithArrivalsKeepsTotal(old(customers), selected);
    }

    /** POST /delete_all: every record is dropped at once. */
    method DeleteAll()
      modifies this
      ensures customers == [] && customers == Apply(old(customers), Request.DeleteAll)
      ensures TotalPeople(customers) == 0
    {
      customers := [];
    }
  }
}
