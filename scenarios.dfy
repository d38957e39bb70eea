/** The concrete scenarios of the repository's tests, stated over the model. */
module Scenarios {
  import opened Entities
  import opened Payment
  import opened Queries

  /** Client 10 with 500, contractor 11 with 75, contract 20 between them in
      progress, unpaid job 30 priced 200. */
  function Marketplace(): Tables {
    Tables(
      map[10 := Profile(Client, 500), 11 := Profile(Contractor, 75)],
      map[20 := Contract("terms", InProgress, 10, 11)],
      map[30 := Job("job", 200, false, None, 20)])
  }

  /** The contractor's attempt is refused as not found and writes nothing;
      the client's payment leaves 300 and 275 and a job paid at `now`. */
  lemma PaymentScenario(now: Time)
    ensures PayResult(Marketplace(), 30, 11, now) == Transition(NotFound, Marketplace())
    ensures var r := PayResult(Marketplace(), 30, 10, now);
            && r.outcome.Paid?
            && r.after.profiles[10].balance == 300
            && r.after.profiles[11].balance == 275
            && r.after.jobs[30].paid && r.after.jobs[30].paymentDate == Some(now)
  {
  }

  /** Both parties of contract 20 see it, and only it, in their lists. */
  lemma ContractListScenario()
    ensures OpenContracts(Marketplace().contracts, 10) == map[20 := Marketplace().contracts[20]]
    ensures OpenContracts(Marketplace().contracts, 11) == map[20 := Marketplace().contracts[20]]
    ensures OpenContracts(Marketplace().contracts, 12) == map[]
  {
  }

  /** The same payment driven through the store object, followed by a
      repeated request from the client. */
  method StoreScenario(now: Time)
    returns (refused: PayOutcome, paid: PayOutcome, again: PayOutcome, clientBalance: Money, contractorBalance: Money)
    ensures refused == NotFound
    ensures paid.Paid? && paid.snapshot.job.paid && paid.snapshot.job.paymentDate == Some(now)
    ensures again == AlreadyPaid
    ensures clientBalance == 300 && contractorBalance == 275
  {
    var store := new Store(Marketplace());
    refused := store.Pay(30, 11, now);
    paid := store.Pay(30, 10, now);
    again := store.Pay(30, 10, now + 1);
    clientBalance := store.profiles[10].balance;
    contractorBalance := store.profiles[11].balance;
  }
}
