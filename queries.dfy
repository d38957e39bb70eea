/** The read-only endpoints next to the payment routine: one contract by id,
    the caller's open contracts, and the caller's unpaid jobs. Each is a
    lookup or a filter over the tables, scoped to the calling profile. */
module Queries {
  import opened Entities

  /** Answer of `GET /contracts/:id`: 404, 403, or the contract. */
  datatype ContractLookup = ContractMissing | Forbidden | Found(contract: Contract)

  function GetContract(contracts: map<ContractId, Contract>, id: ContractId, caller: ProfileId): (r: ContractLookup)
    ensures r.ContractMissing? <==> id !in contracts
    ensures r.Forbidden? <==> id in contracts && !IsParty(contracts[id], caller)
    ensures r.Found? <==> id in contracts && IsParty(contracts[id], caller)
    ensures r.Found? ==> r.contract == contracts[id]
  {
    if id !in contracts then ContractMissing
    else if contracts[id].contractorId != caller && contracts[id].clientId != caller then Forbidden
    else Found(contracts[id])
  }

  /** The caller is a party to the contract and it is not terminated. */
  predicate IsOpenFor(c: Contract, caller: ProfileId) {
    IsParty(c, caller) && c.status != Terminated
  }

  /** `GET /contracts`: the contracts of the caller that are not terminated. */
  function OpenContracts(contracts: map<ContractId, Contract>, caller: ProfileId): (r: map<ContractId, Contract>)
    ensures forall id :: id in r <==> id in contracts && IsOpenFor(contracts[id], caller)
    ensures forall id :: id in r ==> r[id] == contracts[id]
  {
    map id | id in contracts && IsOpenFor(contracts[id], caller) :: contracts[id]
  }

  /** The job is unpaid and its contract exists, is in progress and has the
      caller as a party. A job whose contract row is missing drops out, as
      the inner join of the query drops it. */
  predicate IsUnpaidFor(t: Tables, id: JobId, caller: ProfileId) {
    && id in t.jobs
    && !t.jobs[id].paid
    && HasContract(t, id)
    && ContractOf(t, id).status == InProgress
    && IsParty(ContractOf(t, id), caller)
  }

  /** `GET /jobs/unpaid`: each qualifying job with its contract. */
  function UnpaidJobs(t: Tables, caller: ProfileId): (r: map<JobId, JobRow>)
    ensures forall id :: id in r <==> IsUnpaidFor(t, id, caller)
    ensures forall id :: id in r ==> HasContract(t, id) && r[id] == JobRow(id, t.jobs[id], ContractOf(t, id))
  {
    map id | id in t.jobs && IsUnpaidFor(t, id, caller) :: JobRow(id, t.jobs[id], ContractOf(t, id))
  }

  /** Every contract in the caller's list is one the caller may also fetch
      by id, and it is fetched unchanged. */
  lemma OpenContractsAreFetchable(contracts: map<ContractId, Contract>, caller: ProfileId, id: ContractId)
    requires id in OpenContracts(contracts, caller)
    ensures GetContract(contracts, id, caller) == Found(OpenContracts(contracts, caller)[id])
  {
  }

  /** A contract the caller may fetch by id is missing from the list only
      because it is terminated. */
  lemma FetchableContractsAreListedUnlessTerminated(contracts: map<ContractId, Contract>, caller: ProfileId, id: ContractId)
    requires GetContract(contracts, id, caller).Found?
    ensures id !in OpenContracts(contracts, caller) <==> contracts[id].status == Terminated
  {
  }

  /** The contract of every listed unpaid job is one the caller may fetch,
      and appears among the caller's open contracts. */
  lemma UnpaidJobsHaveOpenContracts(t: Tables, caller: ProfileId, id: JobId)
    requires id in UnpaidJobs(t, caller)
    ensures var cid := t.jobs[id].contractId;
            && GetContract(t.contracts, cid, caller).Found?
            && cid in OpenContracts(t.contracts, caller)
  {
  }
}
