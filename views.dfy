/** How a payment shows up in the read-only endpoints. */
module Views {
  import opened Entities
  import opened Payment
  import opened Queries

  /** A payment takes the paid job off every caller's unpaid list and
      changes nothing else in any of those lists. */
  lemma PayRemovesJobFromUnpaidLists(t: Tables, jobId: JobId, caller: ProfileId, now: Time, viewer: ProfileId)
    requires PayResult(t, jobId, caller, now).outcome.Paid?
    ensures UnpaidJobs(PayResult(t, jobId, caller, now).after, viewer) == UnpaidJobs(t, viewer) - {jobId}
  {
  }

  /** A payment never changes what the contract endpoints answer. */
  lemma PayLeavesContractViewsUnchanged(t: Tables, jobId: JobId, caller: ProfileId, now: Time, viewer: ProfileId, id: ContractId)
    ensures var after := PayResult(t, jobId, caller, now).after;
            && GetContract(after.contracts, id, viewer) == GetContract(t.contracts, id, viewer)
            && OpenContracts(after.contracts, viewer) == OpenContracts(t.contracts, viewer)
  {
  }

  /** A job on its client's unpaid list is paid by the client's request
      whenever the client's balance covers the price. */
  lemma ListedJobIsPayable(t: Tables, jobId: JobId, caller: ProfileId, now: Time)
    requires jobId in UnpaidJobs(t, caller)
    requires ContractOf(t, jobId).clientId == caller
    requires caller in t.profiles && t.jobs[jobId].price <= t.profiles[caller].balance
    ensures PayResult(t, jobId, caller, now).outcome.Paid?
  {
  }

  /** The contractor sees the job on its unpaid list but cannot pay it: the
      payment routine answers that the job does not exist. */
  lemma ContractorSeesButCannotPay(t: Tables, jobId: JobId, caller: ProfileId, now: Time)
    requires jobId in UnpaidJobs(t, caller)
    requires ContractOf(t, jobId).clientId != caller
    ensures PayResult(t, jobId, caller, now) == Transition(NotFound, t)
  {
  }

  /** The payment routine does not look at the contract's status: setting
      the status to anything leaves the outcome's kind the same, so jobs of
      new or terminated contracts, which are not on the unpaid list, can
      still be paid. */
  lemma PayIgnoresContractStatus(t: Tables, jobId: JobId, caller: ProfileId, now: Time, s: ContractStatus)
    requires HasContract(t, jobId)
    ensures var cid := t.jobs[jobId].contractId;
            var t' := t.(contracts := t.contracts[cid := t.contracts[cid].(status := s)]);
            && PayResult(t', jobId, caller, now).outcome.Paid? == PayResult(t, jobId, caller, now).outcome.Paid?
            && PayResult(t', jobId, caller, now).after.profiles == PayResult(t, jobId, caller, now).after.profiles
  {
  }
}
