/** The three tables of the marketplace store: Profiles, Contracts and Jobs.
    Rows are kept in maps keyed by their primary key. Amounts of money are
    whole numbers of the smallest currency unit, and points in time are
    opaque integers supplied by the caller. */
module Entities {

  type ProfileId = int
  type ContractId = int
  type JobId = int
  type Money = int
  type Time = int

  datatype Option<T> = None | Some(value: T)

  datatype ProfileType = Client | Contractor

  datatype Profile = Profile(kind: ProfileType, balance: Money)

  datatype ContractStatus = New | InProgress | Terminated

  datatype Contract = Contract(
    terms: string,
    status: ContractStatus,
    clientId: ProfileId,
    contractorId: ProfileId)

  datatype Job = Job(
    description: string,
    price: Money,
    paid: bool,
    paymentDate: Option<Time>,
    contractId: ContractId)

  /** A job row as the store returns it when the job is loaded together
      with its contract. */
  datatype JobRow = JobRow(id: JobId, job: Job, contract: Contract)

  datatype Tables = Tables(
    profiles: map<ProfileId, Profile>,
    contracts: map<ContractId, Contract>,
    jobs: map<JobId, Job>)

  /** The caller is the client or the contractor of the contract. */
  predicate IsParty(c: Contract, caller: ProfileId) {
    c.clientId == caller || c.contractorId == caller
  }

  /** Referential integrity: both parties of every contract exist as profiles. */
  predicate PartiesExist(t: Tables) {
    forall id :: id in t.contracts ==>
      t.contracts[id].clientId in t.profiles && t.contracts[id].contractorId in t.profiles
  }

  /** Once a job is paid it carries a payment date. */
  predicate PaidJobsDated(t: Tables) {
    forall id :: id in t.jobs && t.jobs[id].paid ==> t.jobs[id].paymentDate.Some?
  }

  predicate NonNegativeBalances(profiles: map<ProfileId, Profile>) {
    forall id :: id in profiles ==> profiles[id].balance >= 0
  }

  predicate NonNegativePrices(t: Tables) {
    forall id :: id in t.jobs ==> t.jobs[id].price >= 0
  }

  /** The job exists and so does the contract it belongs to. */
  predicate HasContract(t: Tables, jobId: JobId) {
    jobId in t.jobs && t.jobs[jobId].contractId in t.contracts
  }

  function ContractOf(t: Tables, jobId: JobId): (c: Contract)
    requires HasContract(t, jobId)
    ensures c in t.contracts.Values
  {
    t.contracts[t.jobs[jobId].contractId]
  }
}
