/** The job payment routine (`POST /jobs/:id/pay`). Inside one database
    transaction it loads the job with its contract, rejects the request when
    the caller is not the job's client, when the job is already paid or when
    the client cannot cover the price, and otherwise moves the price from the
    client to the contractor and marks the job paid. The transaction and its
    row locks make the routine one atomic step, which is how it is modelled:
    `PayResult` gives the outcome and the tables afterwards as a function of
    the tables before, and `Store.Pay` performs the same steps on the store. */
module Payment {
  import opened Entities
  import opened Ledger

  datatype PayOutcome =
    | Paid(snapshot: JobRow)   // the job as loaded, with paid and paymentDate overwritten
    | NotFound                 // no such job, or the caller is not its client
    | AlreadyPaid
    | InsufficientFunds
    | TransactionFailure       // an exception inside the transaction; everything is rolled back

  datatype Transition = Transition(outcome: PayOutcome, after: Tables)

  /** The job with its payment recorded. */
  function MarkPaid(job: Job, now: Time): (j: Job)
    ensures j.paid && j.paymentDate == Some(now)
    ensures j.price == job.price && j.contractId == job.contractId && j.description == job.description
  {
    job.(paid := true, paymentDate := Some(now))
  }

  /** One call of the payment routine by profile `caller` at time `now`.
      A job whose contract row is missing, or whose client profile is
      missing, makes the routine dereference a missing row; the exception
      rolls the transaction back. A missing contractor profile is not noticed:
      the credit updates no row. */
  function PayResult(t: Tables, jobId: JobId, caller: ProfileId, now: Time): (r: Transition)
    ensures r.after.contracts == t.contracts
    ensures r.after.profiles.Keys == t.profiles.Keys && r.after.jobs.Keys == t.jobs.Keys
    ensures !r.outcome.Paid? ==> r.after == t
  {
    if jobId !in t.jobs then Transition(NotFound, t)
    else
      var job := t.jobs[jobId];
      if job.contractId !in t.contracts then Transition(TransactionFailure, t)
      else
        var contract := t.contracts[job.contractId];
        if contract.clientId != caller then Transition(NotFound, t)
        else if job.paid then Transition(AlreadyPaid, t)
        else if contract.clientId !in t.profiles then Transition(TransactionFailure, t)
        else if job.price > t.profiles[contract.clientId].balance then Transition(InsufficientFunds, t)
        else
          var paidJob := MarkPaid(job, now);
          Transition(
            Paid(JobRow(jobId, paidJob, contract)),
            t.(profiles := Transfer(t.profiles, contract.clientId, contract.contractorId, job.price),
               jobs := t.jobs[jobId := paidJob]))
  }

  /** The store: the three tables, updated in place by a payment. */
  class Store {
    var profiles: map<ProfileId, Profile>
    var contracts: map<ContractId, Contract>
    var jobs: map<JobId, Job>

    function State(): Tables
      reads this
    {
      Tables(profiles, contracts, jobs)
    }

    /** Foreign keys from contracts to profiles hold. */
    ghost predicate Valid()
      reads this
    {
      PartiesExist(State())
    }

    constructor (t: Tables)
      ensures State() == t
    {
      profiles, contracts, jobs := t.profiles, t.contracts, t.jobs;
    }

    /** Pays job `jobId` on behalf of `caller`. The checks run in the order
        of the routine, each failure returning before anything is written;
        on success the client row is debited, the contractor row credited and
        the job row marked paid. */
    method Pay(jobId: JobId, caller: ProfileId, now: Time) returns (outcome: PayOutcome)
      modifies this
      ensures Transition(outcome, State()) == PayResult(old(State()), jobId, caller, now)
      ensures !outcome.Paid? ==> State() == old(State())
      ensures contracts == old(contracts)
      ensures old(Valid()) ==> Valid() && TotalBalance(profiles) == old(TotalBalance(profiles))
    {
      if jobId !in jobs {
        return NotFound;
      }
      var job := jobs[jobId];
      if job.contractId !in contracts {
        return TransactionFailure;
      }
      var contract := contracts[job.contractId];
      if contract.clientId != caller {
        return NotFound;
      }
      if job.paid {
        return AlreadyPaid;
      }
      if contract.clientId !in profiles {
        return TransactionFailure;
      }
      var originAccount := profiles[contract.clientId];
      if job.price > originAccount.balance {
        return InsufficientFunds;
      }
      ghost var before := State();
      profiles := Adjust(profiles, contract.clientId, -job.price);
      profiles := Adjust(profiles, contract.contractorId, job.price);
      var paidJob := MarkPaid(job, now);
      jobs := jobs[jobId := paidJob];
      outcome := Paid(JobRow(jobId, paidJob, contract));
      if PartiesExist(before) {
        PayConservesMoney(before, jobId, caller, now);
      }
    }
  }

  // ---------------------------------------------------------------------
  // Rejections

  /** The request is refused as not found exactly when the job is missing or
      its contract names another client; the contractor of the job is refused
      this way too. Nothing is written. */
  lemma PayNotFound(t: Tables, jobId: JobId, caller: ProfileId, now: Time)
    ensures PayResult(t, jobId, caller, now).outcome == NotFound
            <==> jobId !in t.jobs || (HasContract(t, jobId) && ContractOf(t, jobId).clientId != caller)
    ensures HasContract(t, jobId) && ContractOf(t, jobId).contractorId == caller && ContractOf(t, jobId).clientId != caller
            ==> PayResult(t, jobId, caller, now) == Transition(NotFound, t)
  {
  }

  /** A job that is already paid is refused for its client and nothing is
      written; no caller can pay it again. */
  lemma PayAlreadyPaid(t: Tables, jobId: JobId, caller: ProfileId, now: Time)
    ensures PayResult(t, jobId, caller, now).outcome == AlreadyPaid
            <==> HasContract(t, jobId) && ContractOf(t, jobId).clientId == caller && t.jobs[jobId].paid
    ensures jobId in t.jobs && t.jobs[jobId].paid ==> PayResult(t, jobId, caller, now).after == t
  {
  }

  /** Funds are insufficient exactly when the unpaid job's price exceeds the
      balance of its (existing) client; nothing is written. */
  lemma PayInsufficientFunds(t: Tables, jobId: JobId, caller: ProfileId, now: Time)
    ensures PayResult(t, jobId, caller, now).outcome == InsufficientFunds
            <==> && HasContract(t, jobId)
                 && ContractOf(t, jobId).clientId == caller
                 && !t.jobs[jobId].paid
                 && caller in t.profiles
                 && t.jobs[jobId].price > t.profiles[caller].balance
  {
  }

  /** The routine throws exactly when the job's contract row or the client's
      profile row is missing at the point it is dereferenced. */
  lemma PayTransactionFailure(t: Tables, jobId: JobId, caller: ProfileId, now: Time)
    ensures PayResult(t, jobId, caller, now).outcome == TransactionFailure
            <==> && jobId in t.jobs
                 && (|| t.jobs[jobId].contractId !in t.contracts
                     || (&& ContractOf(t, jobId).clientId == caller
                         && !t.jobs[jobId].paid
                         && caller !in t.profiles))
  {
  }

  /** Under referential integrity the routine never throws. */
  lemma PayNeverFailsWithIntegrity(t: Tables, jobId: JobId, caller: ProfileId, now: Time)
    requires PartiesExist(t)
    requires jobId in t.jobs ==> t.jobs[jobId].contractId in t.contracts
    ensures PayResult(t, jobId, caller, now).outcome != TransactionFailure
  {
  }

  /** The checks run in a fixed order: a stranger asking to pay a paid job is
      told it does not exist, and the client of a paid job is told it is paid
      even when the balance would not cover it. */
  lemma PayCheckOrder(t: Tables, jobId: JobId, caller: ProfileId, now: Time)
    requires HasContract(t, jobId) && t.jobs[jobId].paid
    ensures ContractOf(t, jobId).clientId != caller ==> PayResult(t, jobId, caller, now).outcome == NotFound
    ensures ContractOf(t, jobId).clientId == caller ==> PayResult(t, jobId, caller, now).outcome == AlreadyPaid
  {
  }

  // ---------------------------------------------------------------------
  // Success

  /** A payment succeeds exactly when the job and its contract exist, the
      caller is the client, the job is unpaid, and the client's profile holds
      at least the price (a price equal to the balance is accepted). */
  lemma PaySucceeds(t: Tables, jobId: JobId, caller: ProfileId, now: Time)
    ensures PayResult(t, jobId, caller, now).outcome.Paid?
            <==> && HasContract(t, jobId)
                 && ContractOf(t, jobId).clientId == caller
                 && !t.jobs[jobId].paid
                 && caller in t.profiles
                 && t.jobs[jobId].price <= t.profiles[caller].balance
  {
  }

  /** What a successful payment writes and returns: the client is debited
      and the contractor credited by the price (no net change when they are
      the same profile), no profile changes type and no other profile
      changes at all, the job alone is marked
      paid at `now`, and the returned row is the loaded job with those two
      fields overwritten, together with its contract. */
  lemma PaySuccessEffects(t: Tables, jobId: JobId, caller: ProfileId, now: Time)
    requires PayResult(t, jobId, caller, now).outcome.Paid?
    ensures HasContract(t, jobId) && caller in t.profiles
    ensures var c := ContractOf(t, jobId);
            var price := t.jobs[jobId].price;
            var p := PayResult(t, jobId, caller, now).after.profiles;
            && (c.clientId != c.contractorId ==> p[c.clientId].balance == t.profiles[c.clientId].balance - price)
            && (c.clientId != c.contractorId && c.contractorId in t.profiles
                ==> p[c.contractorId].balance == t.profiles[c.contractorId].balance + price)
            && (c.clientId == c.contractorId ==> p == t.profiles)
            && (forall id :: id in t.profiles && id != c.clientId && id != c.contractorId ==> p[id] == t.profiles[id])
            && (forall id :: id in t.profiles ==> p[id].kind == t.profiles[id].kind)
    ensures var r := PayResult(t, jobId, caller, now);
            && r.after.jobs == t.jobs[jobId := t.jobs[jobId].(paid := true, paymentDate := Some(now))]
            && r.outcome.snapshot == JobRow(jobId, r.after.jobs[jobId], ContractOf(t, jobId))
  {
  }

  /** The client who pays is never left with a negative balance by it. */
  lemma PayKeepsPayerSolvent(t: Tables, jobId: JobId, caller: ProfileId, now: Time)
    requires PayResult(t, jobId, caller, now).outcome.Paid?
    requires caller in t.profiles && t.profiles[caller].balance >= 0
    ensures PayResult(t, jobId, caller, now).after.profiles[caller].balance >= 0
  {
  }

  // ---------------------------------------------------------------------
  // Invariants

  /** With both parties of every contract present, a payment neither creates
      nor destroys money. */
  lemma PayConservesMoney(t: Tables, jobId: JobId, caller: ProfileId, now: Time)
    requires PartiesExist(t)
    ensures TotalBalance(PayResult(t, jobId, caller, now).after.profiles) == TotalBalance(t.profiles)
  {
    var r := PayResult(t, jobId, caller, now);
    if r.outcome.Paid? {
      var c := ContractOf(t, jobId);
      TransferTotal(t.profiles, c.clientId, c.contractorId, t.jobs[jobId].price);
    }
  }

  /** Without that integrity the routine destroys the price: the credit to a
      missing contractor row updates nothing. */
  lemma PayToMissingContractorLosesMoney(t: Tables, jobId: JobId, caller: ProfileId, now: Time)
    requires PayResult(t, jobId, caller, now).outcome.Paid?
    requires HasContract(t, jobId) && ContractOf(t, jobId).contractorId !in t.profiles
    ensures TotalBalance(PayResult(t, jobId, caller, now).after.profiles)
            == TotalBalance(t.profiles) - t.jobs[jobId].price
  {
    var c := ContractOf(t, jobId);
    TransferTotal(t.profiles, c.clientId, c.contractorId, t.jobs[jobId].price);
  }

  /** Non-negative balances stay non-negative when prices are non-negative. */
  lemma PayKeepsBalancesNonNegative(t: Tables, jobId: JobId, caller: ProfileId, now: Time)
    requires NonNegativeBalances(t.profiles) && NonNegativePrices(t)
    ensures NonNegativeBalances(PayResult(t, jobId, caller, now).after.profiles)
    ensures NonNegativePrices(PayResult(t, jobId, caller, now).after)
  {
  }

  /** A paid job is never touched again and never loses its payment date;
      referential integrity and dated payments are preserved. */
  lemma PayPreservesInvariants(t: Tables, jobId: JobId, caller: ProfileId, now: Time)
    ensures forall id :: id in t.jobs && t.jobs[id].paid ==> PayResult(t, jobId, caller, now).after.jobs[id] == t.jobs[id]
    ensures PartiesExist(t) ==> PartiesExist(PayResult(t, jobId, caller, now).after)
    ensures PaidJobsDated(t) ==> PaidJobsDated(PayResult(t, jobId, caller, now).after)
  {
  }

  /** Exactly once: after a successful payment, every further request for the
      same job fails and writes nothing; its client is told it is paid. */
  lemma PayTwice(t: Tables, jobId: JobId, caller: ProfileId, now: Time, caller2: ProfileId, now2: Time)
    requires PayResult(t, jobId, caller, now).outcome.Paid?
    ensures var mid := PayResult(t, jobId, caller, now).after;
            && PayResult(mid, jobId, caller2, now2).after == mid
            && PayResult(mid, jobId, caller, now2).outcome == AlreadyPaid
  {
  }

  /** Two unpaid jobs of one client whose prices together exceed the
      client's balance cannot both be paid one after the other. */
  lemma PayCannotOverdraw(t: Tables, job1: JobId, job2: JobId, caller: ProfileId, now1: Time, now2: Time)
    requires job1 != job2
    requires PayResult(t, job1, caller, now1).outcome.Paid?
    requires ContractOf(t, job1).contractorId != caller
    requires caller in t.profiles
    requires job2 in t.jobs && t.jobs[job1].price + t.jobs[job2].price > t.profiles[caller].balance
    ensures PayResult(PayResult(t, job1, caller, now1).after, job2, caller, now2).outcome == InsufficientFunds
            <==> HasContract(t, job2) && ContractOf(t, job2).clientId == caller && !t.jobs[job2].paid
  {
  }
}
