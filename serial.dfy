/** Many payment requests against one store. The transaction and the row
    locks of the payment routine make concurrent requests take effect one at
    a time, so any set of requests ends as some sequence of `PayResult`
    steps; `RunPayments` is that sequence, and the lemmas below hold for
    every order the locks may choose. */
module Serial {
  import opened Entities
  import opened Ledger
  import opened Payment

  datatype Request = Request(jobId: JobId, caller: ProfileId, now: Time)

  datatype Run = Run(outcomes: seq<PayOutcome>, final: Tables)

  /** The requests served in order, each on the tables its predecessor left. */
  function RunPayments(t: Tables, reqs: seq<Request>): (r: Run)
    ensures |r.outcomes| == |reqs|
    ensures r.final.contracts == t.contracts
    ensures r.final.profiles.Keys == t.profiles.Keys && r.final.jobs.Keys == t.jobs.Keys
    decreases |reqs|
  {
    if reqs == [] then Run([], t)
    else
      var step := PayResult(t, reqs[0].jobId, reqs[0].caller, reqs[0].now);
      var rest := RunPayments(step.after, reqs[1..]);
      Run([step.outcome] + rest.outcomes, rest.final)
  }

  /** With referential integrity, no order of payments creates or destroys money. */
  lemma {:induction false} RunConservesMoney(t: Tables, reqs: seq<Request>)
    requires PartiesExist(t)
    ensures TotalBalance(RunPayments(t, reqs).final.profiles) == TotalBalance(t.profiles)
    decreases |reqs|
  {
    if reqs != [] {
      var step := PayResult(t, reqs[0].jobId, reqs[0].caller, reqs[0].now);
      PayConservesMoney(t, reqs[0].jobId, reqs[0].caller, reqs[0].now);
      PayPreservesInvariants(t, reqs[0].jobId, reqs[0].caller, reqs[0].now);
      RunConservesMoney(step.after, reqs[1..]);
    }
  }

  /** No order of payments drives a balance below zero, concurrent payments
      of several jobs against one nearly exhausted balance included. */
  lemma {:induction false} RunKeepsBalancesNonNegative(t: Tables, reqs: seq<Request>)
    requires NonNegativeBalances(t.profiles) && NonNegativePrices(t)
    ensures NonNegativeBalances(RunPayments(t, reqs).final.profiles)
    decreases |reqs|
  {
    if reqs != [] {
      var step := PayResult(t, reqs[0].jobId, reqs[0].caller, reqs[0].now);
      PayKeepsBalancesNonNegative(t, reqs[0].jobId, reqs[0].caller, reqs[0].now);
      RunKeepsBalancesNonNegative(step.after, reqs[1..]);
    }
  }

  /** A paid job is never paid again and its row never changes. */
  lemma {:induction false} PaidJobStaysPaid(t: Tables, reqs: seq<Request>, k: JobId)
    requires k in t.jobs && t.jobs[k].paid
    ensures RunPayments(t, reqs).final.jobs[k] == t.jobs[k]
    ensures var out := RunPayments(t, reqs).outcomes;
            forall i :: 0 <= i < |reqs| && reqs[i].jobId == k ==> !out[i].Paid?
    decreases |reqs|
  {
    if reqs != [] {
      var step := PayResult(t, reqs[0].jobId, reqs[0].caller, reqs[0].now);
      PayPreservesInvariants(t, reqs[0].jobId, reqs[0].caller, reqs[0].now);
      PaidJobStaysPaid(step.after, reqs[1..], k);
      var out := RunPayments(t, reqs).outcomes;
      var rest := RunPayments(step.after, reqs[1..]).outcomes;
      forall i | 0 <= i < |reqs| && reqs[i].jobId == k
        ensures !out[i].Paid?
      {
        if i > 0 {
          assert out[i] == rest[i - 1] && reqs[1..][i - 1] == reqs[i];
        }
      }
    }
  }

  /** Exactly once: in any order of requests, at most one request per job
      completes a payment. */
  lemma {:induction false} RunPaysEachJobAtMostOnce(t: Tables, reqs: seq<Request>)
    ensures var out := RunPayments(t, reqs).outcomes;
            forall i, j :: 0 <= i < j < |reqs| && out[i].Paid? && out[j].Paid? ==> reqs[i].jobId != reqs[j].jobId
    decreases |reqs|
  {
    if reqs != [] {
      var step := PayResult(t, reqs[0].jobId, reqs[0].caller, reqs[0].now);
      RunPaysEachJobAtMostOnce(step.after, reqs[1..]);
      var out := RunPayments(t, reqs).outcomes;
      var rest := RunPayments(step.after, reqs[1..]).outcomes;
      if step.outcome.Paid? {
        PaySuccessEffects(t, reqs[0].jobId, reqs[0].caller, reqs[0].now);
        PaidJobStaysPaid(step.after, reqs[1..], reqs[0].jobId);
      }
      forall i, j | 0 <= i < j < |reqs| && out[i].Paid? && out[j].Paid?
        ensures reqs[i].jobId != reqs[j].jobId
      {
        assert out[j] == rest[j - 1] && reqs[1..][j - 1] == reqs[j];
        if i > 0 {
          assert out[i] == rest[i - 1] && reqs[1..][i - 1] == reqs[i];
        }
      }
    }
  }

  /** Requests by the client for a job that is already paid are all told
      so, and leave the store as it was. */
  lemma {:induction false} RequestsForPaidJobRejected(t: Tables, reqs: seq<Request>, k: JobId, caller: ProfileId)
    requires HasContract(t, k) && t.jobs[k].paid && ContractOf(t, k).clientId == caller
    requires forall i :: 0 <= i < |reqs| ==> reqs[i] == Request(k, caller, reqs[i].now)
    ensures RunPayments(t, reqs).final == t
    ensures forall i :: 0 <= i < |reqs| ==> RunPayments(t, reqs).outcomes[i] == AlreadyPaid
    decreases |reqs|
  {
    if reqs != [] {
      PayAlreadyPaid(t, k, caller, reqs[0].now);
      RequestsForPaidJobRejected(t, reqs[1..], k, caller);
      var out := RunPayments(t, reqs).outcomes;
      var rest := RunPayments(t, reqs[1..]).outcomes;
      forall i | 0 <= i < |reqs|
        ensures out[i] == AlreadyPaid
      {
        if i > 0 {
          assert out[i] == rest[i - 1];
        }
      }
    }
  }

  /** N requests by the client for one payable job: the first pays, every
      other one is told the job is already paid, and money moves once. */
  lemma RepeatedRequestsPayOnce(t: Tables, reqs: seq<Request>, k: JobId, caller: ProfileId)
    requires |reqs| > 0
    requires forall i :: 0 <= i < |reqs| ==> reqs[i] == Request(k, caller, reqs[i].now)
    requires PayResult(t, k, caller, reqs[0].now).outcome.Paid?
    ensures RunPayments(t, reqs).outcomes[0].Paid?
    ensures forall i :: 1 <= i < |reqs| ==> RunPayments(t, reqs).outcomes[i] == AlreadyPaid
    ensures RunPayments(t, reqs).final == PayResult(t, k, caller, reqs[0].now).after
  {
    var step := PayResult(t, k, caller, reqs[0].now);
    PaySuccessEffects(t, k, caller, reqs[0].now);
    RequestsForPaidJobRejected(step.after, reqs[1..], k, caller);
    var out := RunPayments(t, reqs).outcomes;
    var rest := RunPayments(step.after, reqs[1..]).outcomes;
    forall i | 1 <= i < |reqs|
      ensures out[i] == AlreadyPaid
    {
      assert out[i] == rest[i - 1];
    }
  }
}
