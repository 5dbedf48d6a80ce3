/** Worked examples of the ledger rules. */
module Scenarios {
  import opened Wrappers
  import opened FormText
  import opened Customers

  /**
   * With 48 people registered, a well-formed party of five (no second phone
   * needed) is refused, and the refusal reports the current total of 48.
   */
  lemma FullLedgerRefusesFive(data: seq<Customer>, form: RegisterForm)
    requires TotalPeople(data) == 48
    requires !BlankRequired(form) && NumericFields(form)
    requires ParseInt(Strip(form.amount)).value == 5
    ensures Admit(data, form) == Failure(OverCapacity(48))
  {
  }

  /** Ticking only Alice marks Alice as arrived and Bob as not arrived. */
  lemma TickingAliceOnly(alice: Customer, bob: Customer)
    requires alice.name == "Alice" && bob.name == "Bob"
    ensures WithArrivals([alice, bob], ["Alice"]) == [alice.(arrived := true), bob.(arrived := false)]
  {
  }
}
